# Verified model of the sentiment-analysis pipeline

This project models the ingestion and aggregation logic of a tweet and
comment sentiment-monitoring service for the districts of Madhya Pradesh.
It is written in Dafny and proves properties of that logic. The service
has two halves.

- **Python scrapers.** Two scrapers collect tweets per keyword and append
  them to text logs:
  - `scraper_server.py` writes labelled markdown blocks;
  - `scrape_tweets.py` writes bullet records and keeps a per-keyword
    seen-key set across calls.
- **Node.js server.** The server reads those logs back and asks language
  models (Gemini, Grok) for a sentiment and a topic. It files the results
  in a markdown log and a JSON document grouped by topic. It keeps a
  processed-count cursor, aggregates tweets into per-district counters,
  and derives from them a heat map and an alert log with a summary.

Beside these sit:
- comment pipelines for YouTube, Google Maps reviews and Instagram Reels
  (paging, flatten and label, topic grouping);
- two CSV exporters;
- a keyword-file manager;
- the role-based access middleware.

The model follows the source component by component:

- `TweetMarkdown`, `BulletTweets`: the two tweet logs, each writer with its reader, and their round trips.
- `ScraperServer`, `ScrapeSession`: the keep filter, scroll bounds, media deduplication, search URL and the seen-key set (the `Scraper` class).
- `Retry`, `Gemini`, `Grok`, `AiThreat`: backoff on HTTP 429 with the waits as a trace; the reading and defaulting of model replies; the threat level and attention decisions.
- `ResultsStore`, `TweetProcessing`: the results log and topic-grouped JSON merge; the cursor and busy flag of `processTweets` (the `TweetProcessor` class).
- `Districts`, `Severity`, `GeoSentiment`: the gazetteer and severity tables; the district locator; the `GeoSentimentService` class with its counters, heat map, alert log and statistics.
- `Paging`, `TopicGroups`, `Youtube`, `GoogleReviews`, `Instagram`: the comment pipelines.
- `CsvExport`, `CsvStats`, `CsvViews`, `CsvAdvanced`: RFC 4180 field escaping, the standard, flattened and summary tables, and the accumulating statistics of the `Converter` class.
- `KeywordFile`: the keyword file and the `KeywordStore` commands.
- `Auth`: the access checks as decision functions.
- `JsText`, `JsObject`, `Wrappers`: string and object primitives of the two runtimes.

Stateful parts are Dafny classes whose methods are proved against
specification functions, for example `data == Updated(old(data), ...)`.
Loops are methods with invariants. Network replies, browser reads, the
clock and string similarity enter as parameters.

## Model

| member | source | states |
|---|---|---|
| TweetMarkdown.AppendTweetsToFile | python-scraper/scraper_server.py:463-490 | the log afterwards is the old log followed by one rendered block per tweet, in list order, numbered from 1 |
| TweetMarkdown.ReadTweetsFromFile | src/app.js:209-290 | the reader returns exactly the records of one pass of the line state machine over the file's lines; a missing file gives no records |
| TweetMarkdown.RecordsHaveContent | src/app.js:229-231 | every record the reader returns has content that is not blank after trimming |
| TweetMarkdown.SkippedLineEffect | src/app.js:243-248 | inside a tweet, an Author or Time line leaves every reader variable unchanged |
| TweetMarkdown.HandleLineEffect | src/app.js:277-280 | outside the text section, the Handle line (which no branch tests for) changes nothing |
| TweetMarkdown.CountLineEffect | src/app.js:257-264 | an `**Images:** N found` or `**Videos:** N found` line only closes the text section |
| TweetMarkdown.LazyUrlPlain | src/app.js:268 | on an image line whose url has no whitespace, the lazy `(.+?)` capture takes the whole url and the type group is absent |
| TweetMarkdown.TypeSuffixOfWritten | src/app.js:268 | the ` (type: k)` suffix the writer puts after a video url matches the optional type group with capture k |
| TweetMarkdown.LazyUrlTyped | src/app.js:268 | on a written video line the lazy capture stops right before the type group, yielding the url and the type |
| TweetMarkdown.ImageItemsEffect | src/app.js:265-276 | a run of image item lines appends their references, in order, to the open record's images |
| TweetMarkdown.VideoItemsEffect | src/app.js:265-276 | a run of video item lines appends their references, with their types, in order, to the open record's videos |
| TweetMarkdown.HeadEffect | src/app.js:227-256 | the header, Author, Time, Text and Keyword lines of a block flush the previous record and open one holding the trimmed text and keyword |
| TweetMarkdown.MediaEffect | python-scraper/scraper_server.py:479-488 | the media section of a block, as written, fills the open record's image and video lists with exactly the written urls and types |
| TweetMarkdown.BlankTail | src/app.js:221-224 | a blank line changes nothing in the reader |
| TweetMarkdown.BlockEffect | python-scraper/scraper_server.py:470-490 | one written block, read after any prior lines, flushes the record that was open and leaves open exactly the record the tweet should read back as |
| TweetMarkdown.FlushedBlock | src/app.js:284-286 | the record a block opened is returned exactly when its text is not blank |
| TweetMarkdown.BatchEffect | python-scraper/scraper_server.py:469-490 | a written batch, read after any prior lines, yields the prior records and then one record per tweet with non-blank text, in order |
| TweetMarkdown.AppendReadsBack | python-scraper/scraper_server.py:463-490 | appending a batch to a log that is empty or ends in a newline: the reader returns its old records, then one record per tweet with non-blank text (text, keyword, image urls, video urls and types), in order |
| TweetMarkdown.RenderedBatchReadsBack | src/app.js:209-290 | a log holding one written batch reads back as the expected records of that batch |
| TweetMarkdown.RecoveredAll | src/app.js:216 | one expected record per tweet, none dropped |
| TweetMarkdown.ExpectedKeepsAll | src/app.js:229 | when no tweet text is blank, no tweet is dropped on the way back |
| TweetMarkdown.ExpectedOfTrimmed | src/app.js:249-253 | for tweets with non-blank, already trimmed text every tweet comes back, with its text verbatim as the content |
| BulletTweets.AppendTweetsToFile | python-scraper/scrape_tweets.py:159-185 | the log afterwards is the old log, the section header, then one bullet entry per tweet with its defaults filled in, each followed by a blank line |
| BulletTweets.ReadLines | src/services/fileService.js:37-60 | the strings returned are those of one pass of the buffering loop over the lines, with the last buffer pushed at the end |
| BulletTweets.ReadTweets | src/services/fileService.js:32-61 | `readTweetsFile` returns the strings of the line loop; a missing file gives none |
| BulletTweets.TweetsNonEmpty | src/services/fileService.js:46-58 | no returned string is empty |
| BulletTweets.TweetCount | src/services/fileService.js:41-58 | the number of strings is the number of bullet lines, plus one when text comes before the first bullet |
| BulletTweets.StepSkip | src/services/fileService.js:43-45 | blank lines and `## ` headers leave the reader unchanged |
| BulletTweets.StepBullet | src/services/fileService.js:46-51 | a bullet line pushes the buffered text (if any) and starts a new buffer with the trimmed text after `- ` |
| BulletTweets.StepContinue | src/services/fileService.js:52-54 | any other line joins the current buffer, trimmed |
| BulletTweets.HeaderEffect | python-scraper/scrape_tweets.py:166 | the section header the writer emits is invisible to the reader |
| BulletTweets.EntryEffect | python-scraper/scrape_tweets.py:178-180 | one written entry closes the previous buffer and leaves its label and text buffered |
| BulletTweets.EntriesEffect | python-scraper/scrape_tweets.py:169-185 | the written entries read back as one string per tweet, in order, after whatever was read before |
| BulletTweets.ReadBackAll | python-scraper/scrape_tweets.py:178-180 | one expected string per written tweet, label first, then the trimmed text |
| BulletTweets.AppendReadsBack | src/services/fileService.js:41-58 | appending a batch to any log: the reader returns its old strings, then exactly one "[Author: a] [Handle: h] [Time: t] text" string per tweet, in order |
| ScraperServer.AddImages | python-scraper/scraper_server.py:249-260 | the image loop only appends: the list it started from is kept as a prefix |
| ScraperServer.AddVideosAsWritten | python-scraper/scraper_server.py:273-290 | the video loop as written, which compares a poster only with stored posters; it only appends |
| ScraperServer.AddVideos | python-scraper/scraper_server.py:273-290 | the video loop with the poster also checked against stored URLs; it only appends |
| ScraperServer.AddEmbeds | python-scraper/scraper_server.py:301-311 | the embed loop only appends to the video list |
| ScraperServer.CollectImages | python-scraper/scraper_server.py:249-262 | the image selector loop builds exactly the list the image rule describes |
| ScraperServer.CollectVideos | python-scraper/scraper_server.py:273-292 | the video selector loop builds exactly the list the corrected video rule describes |
| ScraperServer.CollectEmbeds | python-scraper/scraper_server.py:301-313 | the embed selector loop appends exactly what the embed rule describes |
| ScraperServer.ExtractMedia | python-scraper/scraper_server.py:232-318 | the media found is images, then videos, then embeds; every image is on `pbs.twimg.com`, no image URL and (with the corrected poster check) no video URL is stored twice |
| ScraperServer.AddImagesDistinct | python-scraper/scraper_server.py:255 | the image loop keeps image URLs on `pbs.twimg.com` and pairwise distinct |
| ScraperServer.AddVideosDistinct | python-scraper/scraper_server.py:279-290 | with the corrected poster check, video URLs stay pairwise distinct |
| ScraperServer.AddEmbedsDistinct | python-scraper/scraper_server.py:306 | the embed loop keeps video URLs pairwise distinct |
| ScraperServer.PosterBranchDuplicates | python-scraper/scraper_server.py:285 | as written, a video with `src` "x" followed by one with no `src` and poster "x" stores the URL "x" twice |
| ScraperServer.FirstNonBlank | python-scraper/scraper_server.py:385-412 | the author or text read is the fallback or a non-empty string with no whitespace at either end |
| ScraperServer.FirstNonBlankPicksFirst | python-scraper/scraper_server.py:385-412 | the value taken is the stripped text of the first selector whose read is present and not blank; earlier selectors are skipped |
| ScraperServer.FirstNonBlankAllBlank | python-scraper/scraper_server.py:385-412 | when every selector fails or reads blank, the fallback is taken |
| ScraperServer.Accept | python-scraper/scraper_server.py:415-428 | one element at most appends a tweet; the list before is kept |
| ScraperServer.AcceptAll | python-scraper/scraper_server.py:374-435 | one pass over the elements only appends |
| ScraperServer.ScrollFrom | python-scraper/scraper_server.py:336-454 | the passes only append to the tweet list |
| ScraperServer.RunPass | python-scraper/scraper_server.py:350-454 | one pass leaves the list as the pass's effect says: a failed pass or one without elements keeps it, any other scans its elements |
| ScraperServer.ScanPass | python-scraper/scraper_server.py:374-435 | the element loop gives the tweet list one pass describes |
| ScraperServer.ScanElement | python-scraper/scraper_server.py:375-435 | one element reads its author and text, and its tweet is appended exactly when `Accept` appends it: the content test passes and the text is not yet listed |
| ScraperServer.SearchAndScrape | python-scraper/scraper_server.py:333-457 | the scroll loop returns the tweets of passes 0 to max-1 and counts exactly max(max_scroll_attempts, 0) attempts, whatever each pass found |
| ScraperServer.AcceptAllKeptWell | python-scraper/scraper_server.py:415-428 | one pass keeps the list well formed: every tweet has an author other than "Unknown" and text longer than 10, and no text appears twice |
| ScraperServer.AcceptHasText | python-scraper/scraper_server.py:427 | after an element that passes the content test, its text is listed (kept now or already present) |
| ScraperServer.AcceptAllCovers | python-scraper/scraper_server.py:374-428 | every element of a pass that passes the content test has its text in the list afterwards |
| ScraperServer.AcceptAllSound | python-scraper/scraper_server.py:415-428 | every tweet a pass adds is the tweet of one of its elements that passes the content test |
| ScraperServer.ScrollKeptWell | python-scraper/scraper_server.py:336-457 | the whole search returns a well-formed list: all tweets pass the content test and texts are distinct |
| ScraperServer.ScrollReadsOnlyBound | python-scraper/scraper_server.py:336 | passes at or beyond max_scroll_attempts are never read |
| ScraperServer.CleanKeyword | python-scraper/scraper_server.py:227 | each space and each slash becomes `_`, every other character is kept, and the length is unchanged |
| ScraperServer.CleanKeywordsShape | python-scraper/scraper_server.py:227 | the keyword part of the file name holds no space and no slash; a single keyword is just cleaned |
| ScraperServer.CleanKeywords | python-scraper/scraper_server.py:227 | no keywords give the empty part; a single keyword gives just that keyword cleaned |
| ScraperServer.UniqueFilename | python-scraper/scraper_server.py:221-230 | every file name starts with `tweets_output_` and ends in `.md` |
| ScraperServer.CleanKeywordFixed | python-scraper/scraper_server.py:227 | cleaning leaves a keyword unchanged exactly when it has no space and no slash |
| ScraperServer.UniqueFilenameTwo | python-scraper/scraper_server.py:221-230 | the file name for two keywords is `tweets_output_<a>_<b>_<timestamp>_<hash>.md` with both keywords cleaned |
| ScrapeSession.RemoveChar | python-scraper/scrape_tweets.py:57 | `handle.replace("@", "")` leaves no `@` and never lengthens the handle |
| ScrapeSession.RemoveCharKeeps | python-scraper/scrape_tweets.py:57 | every character other than `@` survives the removal, and no other character appears |
| ScrapeSession.BuildSearchUrl | python-scraper/scrape_tweets.py:50-62 | every search URL starts with the Twitter search base |
| ScrapeSession.SearchUrlShape | python-scraper/scrape_tweets.py:56-62 | the URL ends with `&f=live`; a non-empty handle gives `from%3A<handle without @>%20<keyword>` as the query, no handle (or an empty one) the bare keyword |
| ScrapeSession.SearchUrlIgnoresAt | python-scraper/scrape_tweets.py:57 | a handle with or without its `@` gives the same URL |
| ScrapeSession.HandleOf | python-scraper/scrape_tweets.py:109-116 | the stored handle is never empty and always starts with `@` |
| ScrapeSession.TimeOf | python-scraper/scrape_tweets.py:119-123 | the stored time is never empty: a missing element or a missing or empty `datetime` gives "Unknown" |
| ScrapeSession.Extract | python-scraper/scrape_tweets.py:93-123 | an element is skipped when it has no text or blank text; a kept one has non-empty text, a handle starting with `@` and a non-empty time |
| ScrapeSession.ExtractDefaults | python-scraper/scrape_tweets.py:100-123 | missing author, handle and time elements give "Unknown", "@unknown" and "Unknown" |
| ScrapeSession.HandlePrefixed | python-scraper/scrape_tweets.py:112-114 | a handle found without `@` gets one prefixed; one with `@` is kept |
| ScrapeSession.VisitAllGrows | python-scraper/scrape_tweets.py:91-142 | one pass over the elements only appends to the collected tweets |
| ScrapeSession.ScrollFrom | python-scraper/scrape_tweets.py:84-155 | at least one pass runs and at most max(1, max_scroll_attempts); the loop stops before the maximum only after a pass that added nothing |
| ScrapeSession.UpdateAgain | python-scraper/scrape_tweets.py:78-79 | creating the keyword's empty entry first does not change the map that results once the entry is set |
| ScrapeSession.ScanPass | python-scraper/scrape_tweets.py:89-142 | the element loop gives the tweets and seen set one pass describes, and counts exactly the tweets it added |
| ScrapeSession.Scraper.SearchAndScrape | python-scraper/scrape_tweets.py:64-157 | returns the new tweets of the scroll loop; only the keyword's entry of the seen map changes, to the set the loop ends with |
| ScrapeSession.SearchFresh | python-scraper/scrape_tweets.py:125-137 | the returned tweets' keys were not seen before and are pairwise distinct, and the keyword's seen set afterwards is the old one plus exactly those keys |
| ScrapeSession.NoRepeatAcrossCalls | python-scraper/scrape_tweets.py:125-128 | two calls for the same keyword never return the same key, whatever the pages show and whatever calls for other keywords happen in between |
| ScrapeSession.Scraper.constructor | python-scraper/scrape_tweets.py:28 | the seen map starts empty |
| Retry.Delays | src/services/geminiService.js:45-46 | the list of backoff waits has one entry per 429 |
| Retry.DelaysClosedForm | src/services/geminiService.js:46 | the k-th wait is the initial delay times 2^k |
| Retry.ExhaustedShape | src/services/geminiService.js:28-59 | a call that ends with "Max retries reached" sent exactly max(maxRetries, 0) requests, each got a 429, and it waited the doubling delays plus, for Gemini, the final 60-second wait |
| Retry.EndedShape | src/services/geminiService.js:28-56 | a call that answers or rethrows sent between 1 and maxRetries requests, all but the last got a 429, it waited one doubling delay per 429, and it returns the last reply's trimmed text or rethrows its error |
| Retry.MakeRequestWithRetry | src/services/grokService.js:8-46 | the retry loop sends, waits and ends exactly as the recursive description of the retry policy says |
| Retry.GeminiRequest | src/services/geminiService.js:24-60 | with 5 retries from 5000 ms: at most 5 requests, waits 5000, 10000, … ms, and 60000 ms more when every request got a 429 |
| Retry.GrokRequest | src/services/grokService.js:8-46 | with 3 retries from 2000 ms: at most 3 requests and waits 2000, 4000, … ms, with no final wait |
| Retry.FirstErrorRethrown | src/services/geminiService.js:52-55 | an error other than 429 on the first request is rethrown at once, with no wait |
| Gemini.FirstIndex | src/services/geminiService.js:102-103 | the leftmost occurrence of the tag, or none exactly when the reply does not contain it |
| Gemini.LineHead | src/services/geminiService.js:102 | what `(.*)` captures: a prefix with no line terminator that stops at the first one |
| Gemini.Field | src/services/geminiService.js:102-106 | the captured field is trimmed and holds no line terminator; there is none exactly when the tag is absent |
| Gemini.FieldReadsBack | src/services/geminiService.js:102-106 | a tag, a space, a trimmed one-line value and a line break read back as that value, whatever follows |
| Gemini.NonBlank | src/services/geminiService.js:67 | the existing topics are exactly the lines of the topic file that are not blank |
| Gemini.AnalyzeSentiment | src/services/geminiService.js:95-129 | the returned sentiment is always Positive, Negative or Neutral; a failed request gives Neutral/Unknown and leaves the topic file; otherwise the file is unchanged or grows by the returned topic and a newline |
| Gemini.VerdictOfReply | src/services/geminiService.js:105-113 | a valid sentiment comes back with the reply's topic; any other becomes Neutral, with the reply's topic or Unknown when that is empty |
| Gemini.TopicAppendedIff | src/services/geminiService.js:110-122 | the topic file grows exactly when the sentiment was valid, the topic is not Unknown and the file does not list it yet |
| Gemini.AppendedTopicListed | src/services/geminiService.js:119 | a topic appended to a file that ends in a newline is listed afterwards, and the file still ends in a newline |
| Gemini.TopicAppendedOnce | src/services/geminiService.js:116-122 | analysing the same reply a second time returns the same verdict and does not append the topic again |
| Gemini.PostProcess | src/services/geminiService.js:299-318 | one corrected verdict keeps its topic and has an allowed label; a competitor mention gives Competitors Mentioned; a short or generic comment is never Positive or Negative; an untouched verdict is returned as it was |
| Gemini.Padded | src/services/geminiService.js:295-297 | the parsed verdicts are kept, then Neutral/Unknown fills up to one per comment |
| Gemini.Batch | src/services/geminiService.js:222-321 | corrected batch: one verdict per comment, each with an allowed label, Competitors Mentioned for a competitor mention, never Positive or Negative for a bland comment, the parsed topic or Unknown for a padded one |
| Gemini.AnalyzeSentimentsBatch | src/services/geminiService.js:295-320 | the padding and correction loops compute the batch as written |
| Gemini.BatchAsWrittenCases | src/services/geminiService.js:223-320 | no comments give no verdicts; at most one parsed verdict per comment gives the corrected batch; a surplus verdict makes the call throw at `comments[i]` |
| Gemini.BatchAsWritten | src/services/geminiService.js:222-321 | as written the call throws exactly when there are comments and more parsed verdicts than comments; otherwise it gives one verdict per comment |
| Gemini.SurplusVerdictThrows | src/services/geminiService.js:299-307 | one comment and a reply with two verdicts: the call as written throws, the corrected batch returns the first verdict |
| Gemini.NoLetterNoCompetitor | src/services/geminiService.js:234-307 | a comment without letters mentions no competitor |
| Gemini.FetchGoogleNews | src/services/geminiService.js:153-174 | at most the first five items of the feed, in feed order, all of them when there are fewer; a failed request, a non-200 status or a feed without items give none |
| Gemini.FetchAndValidateNews | src/services/geminiService.js:176-215 | the fetched articles and the first three of them marked valid with score 0.5, the first as top match; no articles give the "No news articles found" summary and no top match |
| ResultsStore.ReplaceNewlines | src/app.js:433 | every line break of the tweet becomes a space and nothing else changes |
| ResultsStore.TweetLineIsOneLine | src/app.js:433-434 | the result line of a tweet is one line whatever the tweet holds |
| ResultsStore.BlocksAppend | src/app.js:432-442 | the markdown of two batches is the markdown of each in order: the log is append-only |
| ResultsStore.ResultsMarkdown | src/app.js:429-442 | the section starts with its `## Results at <time>` heading and, when the batch is not empty, ends with a line break |
| ResultsStore.EntriesFor | src/app.js:458-467 | a topic's new entries are at most one per row |
| ResultsStore.EntriesForHas | src/app.js:459-466 | every row's entry is filed under its own topic |
| ResultsStore.Merged | src/app.js:458-467 | the topics after the batch are the stored ones and the batch's; a topic's list grows by at most one entry per row |
| ResultsStore.MergedKeeps | src/app.js:459-466 | existing entries are never lost or reordered: each topic's old list is a prefix of its new one |
| ResultsStore.MergedUntouched | src/app.js:458-467 | topics the batch does not mention keep their lists, and no topic appears that is neither stored nor in the batch |
| ResultsStore.MergedNothing | src/app.js:458-467 | an empty batch leaves the document as it is |
| ResultsStore.MergedCompose | src/app.js:448-473 | writing two batches one after the other is writing their concatenation |
| ResultsStore.AppendResultsToJson | src/app.js:448-473 | when every row's news is a list the document becomes the old one with each row pushed onto its topic's list; otherwise `news.map` throws, the error is swallowed and the file is left as it was |
| ResultsStore.PartialAll | src/services/fileService.js:105-111 | merging the batch's per-topic groups into the stored document is the same as pushing the rows one by one |
| ResultsStore.GroupRows | src/services/fileService.js:68-88 | the first pass yields the batch's markdown and its rows grouped by topic in row order, or fails when a row's news is not a list |
| ResultsStore.MergeGroups | src/services/fileService.js:106-111 | the second pass appends every group to its topic's stored list |
| ResultsStore.WriteResults | src/services/fileService.js:63-118 | the markdown log grows by the batch's section and the document holds every row pushed onto its topic's list; a row without a news list makes the call throw before anything is written |
| TweetProcessing.LastTweetCount | src/app.js:186-200 | a missing file, or trimmed content that is not all digits, gives 0 |
| TweetProcessing.CursorText | src/app.js:203-206 | the stored count is all digits, with no surrounding whitespace |
| TweetProcessing.CursorRoundTrip | src/services/fileService.js:11-30 | what `setLastTweetCount` stores, `getLastTweetCount` reads back |
| TweetProcessing.CursorReadsDigits | src/app.js:189-192 | whitespace around the digits is ignored and the digits are read in base 10 |
| TweetProcessing.MapSentimentToValidEnum | src/app.js:324-337 | the mapped label is always POSITIVE, NEGATIVE or NEUTRAL |
| TweetProcessing.MapByKey | src/app.js:334 | a label whose upper-case form is a key of the table maps to that key's value |
| TweetProcessing.MapFixesEnum | src/app.js:326-328 | the three database labels map to themselves |
| TweetProcessing.MapIdempotent | src/app.js:324-337 | mapping twice is mapping once |
| TweetProcessing.MapIgnoresCase | src/app.js:334 | lower-casing or upper-casing the label first does not change the result |
| TweetProcessing.MapSpelled | src/app.js:334 | a label whose letters, upper-cased, spell a key maps as that key does |
| TweetProcessing.MapTable | src/app.js:329-332 | Funny maps to POSITIVE, Provocative to NEGATIVE, Sarcasm and Religious to NEUTRAL |
| TweetProcessing.Pending | src/app.js:499-509 | there is a batch exactly when the file holds more tweets than the cursor; it is the non-empty rest of the tweets after the cursor |
| TweetProcessing.AnalyzeOne | src/app.js:525-550 | one result row per tweet, holding the tweet's text and a database sentiment label; the topic file only grows |
| TweetProcessing.AnalyzeAll | src/app.js:524-613 | one result row per tweet, in order, each with the tweet's text and a database label; the topic file only grows |
| TweetProcessing.AnalyzeTweets | src/app.js:524-613 | the loop over the batch computes the rows the analysis describes |
| TweetProcessing.AsPushed | src/app.js:550 | the rows handed to the writers carry the news record in the news slot, so for a non-empty batch some row has no news list |
| TweetProcessing.WithNews | src/app.js:546-550 | the corrected rows carry the validated articles as their news list, with the same tweets and topics |
| TweetProcessing.RunBatch | src/app.js:481-644 | one call after the busy flag is set computes the files the as-written description gives: same branches, same early returns, writers called on the pushed rows |
| TweetProcessing.ReadBatch | src/app.js:485-510 | the batch is the explicit list when one is given, otherwise the file's tweets past the cursor; no file or nothing new returns early |
| TweetProcessing.ProcessAsWritten | src/app.js:481-644 | as written, no batch, an empty batch or missing defaults leave every file as it was, and no call ever moves the cursor or writes the JSON document |
| TweetProcessing.ProcessCorrected | src/app.js:481-644 | with the corrections, no batch, an empty batch or missing defaults leave every file as it was; a batch always writes the JSON document; the markdown log only grows |
| TweetProcessing.CursorNeverAdvances | src/app.js:636-637 | as written, the cursor file and the JSON document never change (`total` is out of scope at line 636 and `news.map` throws at line 465); the markdown log only grows |
| TweetProcessing.SameTweetsAgain | src/app.js:499-509 | hence the next call on the same tweets file finds the very same batch again |
| TweetProcessing.CursorAdvances | src/app.js:499-509 | with the cursor write corrected, a batch moves the cursor to the end of the file's tweets; the next call finds nothing new, and after more tweets are appended it gets exactly those |
| TweetProcessing.EveryResultFiled | src/app.js:448-467 | with the rows corrected, every analysed tweet is filed in the JSON document under its topic, and every stored list keeps its entries as a prefix |
| TweetProcessing.TweetProcessor.constructor | src/app.js:183 | the busy flag starts cleared |
| TweetProcessing.TweetProcessor.ProcessTweets | src/app.js:476-648 | while a call is in progress nothing changes; otherwise the batch runs as written and the flag is cleared again on every way out |
| Grok.LineCapture | src/services/grokService.js:67 | `\s*(.+)` after a tag captures a trimmed one-line value, and fails exactly when only line terminators follow the tag |
| Grok.DigitRun | src/services/grokService.js:116 | the leading run of decimal digits, stopping at the first non-digit |
| Grok.ScoreCapture | src/services/grokService.js:116 | `\s*(\d+)` fails exactly when the first character after the whitespace is not a digit |
| Grok.Scan | src/services/grokService.js:67-70 | a case-insensitive match succeeds with the capture at some occurrence of the tag, and fails exactly when no occurrence is followed by a matching capture |
| Grok.ScanAt | src/services/grokService.js:67-70 | the leftmost occurrence whose capture matches decides the result |
| Grok.Field | src/services/grokService.js:67-77 | a text field is trimmed and one line, and is absent exactly when no occurrence of the tag has anything but line terminators after it |
| Grok.FieldReadsBack | src/services/grokService.js:67-77 | a line `<tag> value`, whatever the tag's letter case and whatever follows the line, reads back as the value when the tag does not occur earlier |
| Grok.Score | src/services/grokService.js:116-123 | the match score is absent exactly when no occurrence of the tag is followed by digits |
| Grok.ScoreReadsBack | src/services/grokService.js:116-123 | a score written in decimal after the tag reads back as that number |
| Grok.FieldOr | src/services/grokService.js:72-77 | a field is the stated one-line trimmed value, or the default; a reply without the tag gives the default |
| Grok.FieldOrReadsBack | src/services/grokService.js:72-77 | a reply whose first line is `<tag> value` gives that value |
| Grok.AnalyzeSentiment | src/services/grokService.js:48-90 | the reply is kept as the analysis; each field is stated or defaults to NEUTRAL, Unknown, Medium, "No reasoning provided"; a failed request gives NEUTRAL, Unknown, Low, "Error in analysis" and no analysis |
| Grok.SentimentDefaults | src/services/grokService.js:72-78 | a reply stating none of the fields gives every default, with the reply kept |
| Grok.SentimentReadsBack | src/services/grokService.js:67-73 | a reply opening with a sentiment line gives that sentiment |
| Grok.ValidateNews | src/services/grokService.js:92-141 | the reply is kept; the score is the integer after the score tag or 0; a failed request gives the fixed error record |
| Grok.MatchScoreReadsBack | src/services/grokService.js:116-123 | a reply opening with a score line gives that score |
| Grok.CrossValidate | src/services/grokService.js:217-277 | the final sentiment and topic are the reply's or Gemini's; a failed request keeps Gemini's verdict with Partial consensus and "Use Gemini analysis" |
| Grok.GeminiVerdictKept | src/services/grokService.js:257-258 | a reply that states neither final field keeps Gemini's sentiment and topic |
| Grok.FinalTopicReadsBack | src/services/grokService.js:250-258 | a reply opening with a final-topic line overrides Gemini's topic |
| Grok.AnalyzeMediaContent | src/services/grokService.js:143-215 | no media gives the fixed no_media record without a request; otherwise the answer is kept, a description is always present, and a failed request gives relevance "error" and confidence Low |
| Grok.NoMediaNoRequest | src/services/grokService.js:145-151 | without media the answer cannot change the result |
| AiThreat.StrOr | src/services/aiSentimentService.js:149-154 | `field \|\| default` on a string: the stated non-empty value, or the default |
| AiThreat.Exponent | src/services/aiSentimentService.js:150 | an exponent of decimal digits is their value, a `-` sign negates it, and text that is not digits is no exponent |
| AiThreat.Mantissa | src/services/aiSentimentService.js:150 | a mantissa is never negative, and plain decimal digits are read as their value |
| AiThreat.UnsignedDecimal | src/services/aiSentimentService.js:150 | an unsigned decimal literal is `Infinity` or a non-negative finite number |
| AiThreat.TextNumber | src/services/aiSentimentService.js:150 | JavaScript's number conversion of a string: blank text is 0, and NaN only for text that is neither blank nor plain digits |
| AiThreat.TextNumberOfDigits | src/services/aiSentimentService.js:150 | decimal digits with surrounding whitespace are read as their value |
| AiThreat.FractionText | src/services/aiSentimentService.js:150 | digits, a point and digits are read as the decimal fraction they spell |
| AiThreat.ExponentNumberText | src/services/aiSentimentService.js:150 | digits, `e` and digits are read as the digits times that power of ten |
| AiThreat.DecimalFractionText | src/services/aiSentimentService.js:150 | "85.5" is read as 85.5 |
| AiThreat.ExponentText | src/services/aiSentimentService.js:150 | "1e2" is read as 100 |
| AiThreat.SignedText | src/services/aiSentimentService.js:150 | " -3 " is read as -3: whitespace ignored, the sign negates |
| AiThreat.HexText | src/services/aiSentimentService.js:150 | "0x10" is read as 16 |
| AiThreat.InfinityText | src/services/aiSentimentService.js:150 | "-Infinity" is read as negative infinity |
| AiThreat.WordText | src/services/aiSentimentService.js:150 | a word such as "high" is NaN |
| AiThreat.NumberOfNatText | src/services/aiSentimentService.js:150 | reading the decimal text of a natural number gives that number back |
| AiThreat.ConfidenceAsWritten | src/services/aiSentimentService.js:150 | the clamp as written: any number it yields lies in [0, 100]; a missing or falsy confidence gives 0; a numeric one always yields a number; a string one yields NaN exactly when `Number` reads it as NaN |
| AiThreat.ConfidenceOfDecimalText | src/services/aiSentimentService.js:150 | a confidence given as the text "85.5" is clamped to 85.5 |
| AiThreat.ConfidenceWordIsNaN | src/services/aiSentimentService.js:150 | a confidence written as a word ("high") is not clamped: the result is NaN |
| AiThreat.Confidence | src/services/aiSentimentService.js:150 | the clamp as intended: always in [0, 100], the code's number whenever it yields one, and 0 for NaN |
| AiThreat.ConfidenceClamps | src/services/aiSentimentService.js:150 | a number inside [0, 100] is kept, one below gives 0, one above gives 100 |
| AiThreat.FirstOf | src/services/aiSentimentService.js:134 | the first occurrence of the brace, or none exactly when it is absent |
| AiThreat.LastOf | src/services/aiSentimentService.js:134 | the last occurrence of the brace, or none exactly when it is absent |
| AiThreat.JsonText | src/services/aiSentimentService.js:134-137 | the match runs from the first `{` to the last `}` after it, and there is none exactly when no `}` follows the first `{` |
| AiThreat.JsonTextOfWrapped | src/services/aiSentimentService.js:134 | a JSON object wrapped in prose without braces is extracted exactly |
| AiThreat.ParseThreat | src/services/aiSentimentService.js:131-171 | a non-empty severity and a confidence in [0, 100] (the corrected clamp, see Left out); no JSON gives the "No JSON found" error record, a parse failure the error record with its message; a recommended action exactly when an object was parsed |
| AiThreat.EmptyVerdictDefaults | src/services/aiSentimentService.js:148-154 | an object with none of the fields reads as not anti-national, severity NONE, confidence 0, no threats, "No reasoning provided", no_action |
| AiThreat.AnalyzeThreat | src/services/aiSentimentService.js:18-49 | a recommended action exactly when the request succeeded and its reply held a readable JSON object; every other outcome is not anti-national, severity UNKNOWN, confidence 0, no threats; a failed request says "AI analysis failed" |
| AiThreat.ParseGeo | src/services/aiSentimentService.js:264-298 | a non-empty sentiment and a confidence in [0, 100] (the corrected clamp, see Left out); no JSON or a parse failure gives neutral, 0 and no district; a parsed object gives its district |
| AiThreat.AnalyzeGeo | src/services/aiSentimentService.js:174-204 | a failed request gives neutral, 0 and no district; otherwise the parsed reply |
| AiThreat.ThreatLevel | src/services/aiSentimentService.js:340-346 | CRITICAL, HIGH, MEDIUM exactly for that severity; LOW exactly when the severity is none of those and the sentiment is negative with confidence above 80; NONE otherwise |
| AiThreat.RequiresAttention | src/services/aiSentimentService.js:340-353 | every level raised by the severity needs attention, and so do an anti-national verdict and a failed analysis (severity UNKNOWN); with severity NONE and no anti-national verdict, attention is needed exactly for a negative sentiment above 90; no attention implies level LOW or NONE |
| AiThreat.LowSeverityAlone | src/services/aiSentimentService.js:340-353 | a LOW severity alone gives level NONE, yet needs attention |
| AiThreat.LowWithoutAttention | src/services/aiSentimentService.js:344-353 | severity NONE with a negative sentiment at confidence in (80, 90] gives level LOW but no attention |
| AiThreat.FailureNeedsAttention | src/services/aiSentimentService.js:38-48 | a failed or unreadable analysis always needs attention, and its level is LOW or NONE |
| Districts.MpDistricts | src/data/mpDistricts.js:1-303 | the table holds its 50 entries in declaration order |
| Districts.AllWellNamed | src/data/mpDistricts.js:1-303 | every district's id is its name in lower case, and its first keyword is its id |
| Severity.Spread | src/data/antiNationalKeywords.js:86 | spreading no category lists gives no keywords |
| Severity.LevelsByWeight | src/data/antiNationalKeywords.js:84-109 | four levels CRITICAL, HIGH, MEDIUM, LOW with weights 10, 8, 6, 4, strictly decreasing |
| Severity.ColoursDistinct | src/data/antiNationalKeywords.js:88-106 | no two levels share a colour |
| Severity.Home | src/data/antiNationalKeywords.js:86-104 | each category feeds some level |
| Severity.CategoriesPartitioned | src/data/antiNationalKeywords.js:1-109 | every category is declared and feeds exactly one level |
| Severity.SpreadSlice | src/data/antiNationalKeywords.js:86 | a category's list sits in its level's keywords right after the lists of the categories before it |
| Severity.SpreadHas | src/data/antiNationalKeywords.js:86-104 | every keyword of a category a level lists is one of that level's keywords |
| GeoSentiment.FirstHit | src/services/geoSentimentService.js:38-44 | the first table entry from `from` on whose (lower-cased) keyword occurs in the text, and no earlier one; none when no entry matches |
| GeoSentiment.Locate | src/services/geoSentimentService.js:34-58 | a located name is a district of the table; null exactly when neither a keyword nor a neighbour of any district occurs |
| GeoSentiment.LocateKeywordFirst | src/services/geoSentimentService.js:38-44 | the first district in table order with a keyword hit is returned |
| GeoSentiment.LocateNeighbourFallback | src/services/geoSentimentService.js:47-55 | with no keyword hit anywhere, the first district with a neighbour hit is returned |
| GeoSentiment.LocateNoLaterThan | src/services/geoSentimentService.js:38-44 | a keyword of district i in the text yields district i or an earlier one |
| GeoSentiment.ShadowedNeighbour | src/services/geoSentimentService.js:38-55 | a neighbour name that is also some district's keyword is always caught by the keyword pass, so the neighbour pass never sees it |
| GeoSentiment.ExtractDistrict | src/services/geoSentimentService.js:34-35 | tweet text and location joined by a space and lower-cased; any result names a district of the gazetteer |
| GeoSentiment.ScanTable | src/services/geoSentimentService.js:38-55 | the nested loop returns exactly the first hit of the specification |
| GeoSentiment.ExtractDistrictFromTweet | src/services/geoSentimentService.js:34-58 | the two loops compute `ExtractDistrict` |
| GeoSentiment.TableOrderBreaksTies | src/services/geoSentimentService.js:38-44 | any text mentioning "bhopal" is assigned to Bhopal, whatever else it mentions |
| GeoSentiment.DharInsideWords | src/services/geoSentimentService.js:40 | a text holding "dhar" anywhere, inside a longer word such as "aadhar" included, resolves to Dhar (entry 34) or to a district declared before it; it never resolves to none |
| GeoSentiment.UjjainNeighbourIsIndore | src/data/mpDistricts.js:1-303 | Ujjain lists Indore as a neighbour, which is Indore's own keyword |
| GeoSentiment.NeighboursRepeat | src/data/mpDistricts.js:1-303 | Tikamgarh and Neemuch list one neighbour twice |
| GeoSentiment.Bump | src/services/geoSentimentService.js:112 | a known counter key grows the tally by one; any other key leaves the counters and records a NaN label |
| GeoSentiment.Update | src/services/geoSentimentService.js:105-122 | total tweets grow by one; a flagged tweet bumps `anti_national` and adds one HIGH alert |
| GeoSentiment.Updated | src/services/geoSentimentService.js:100-103 | an unknown district changes nothing; no other district's record changes |
| GeoSentiment.UpdateMonotone | src/services/geoSentimentService.js:100-123 | no counter of any district goes down; a known district's total grows by one |
| GeoSentiment.ExactlyOneCounter | src/services/geoSentimentService.js:109-113 | exactly one counter grows, unless the label is unknown, in which case none does and it is recorded |
| GeoSentiment.AntiNationalWithoutAlert | src/services/geoSentimentService.js:109-122 | the label "anti_national" without the flag bumps the counter but adds no alert |
| GeoSentiment.Intensity | src/services/geoSentimentService.js:130-147 | heat intensity (in tenths) is one of 10, 8, 7, 5, 2 |
| GeoSentiment.DivGreater | src/services/geoSentimentService.js:139-145 | a ratio test a/s > b is the cross-multiplied a > b*s |
| GeoSentiment.DivLess | src/services/geoSentimentService.js:145 | a ratio test a/s < b is the cross-multiplied a < b*s |
| GeoSentiment.IntensityMatchesRatios | src/services/geoSentimentService.js:130-147 | the integer intensity equals the one computed with the source's real-valued ratios |
| GeoSentiment.ThreatNeverCools | src/services/geoSentimentService.js:139-142 | one more anti-national tweet never lowers the intensity |
| GeoSentiment.NegativePaintedColder | src/services/geoSentimentService.js:168-184 | as written, a mostly negative district (0.7) is light green while a mostly positive one (0.2) is orange |
| GeoSentiment.ColorAsWritten | src/services/geoSentimentService.js:168-184 | as written the colour is one of the five palette colours or the green #00FF00, and more than one tenth of threat posts is always red |
| GeoSentiment.NegativeExample | src/services/geoSentimentService.js:145-146 | one positive and nine negative tweets give intensity 0.7 and the light green colour |
| GeoSentiment.HeatColor | src/services/geoSentimentService.js:168-184 | the corrected colour is always one of the palette |
| GeoSentiment.HeatColorMonotone | src/services/geoSentimentService.js:168-184 | in the corrected colouring a hotter intensity is never painted cooler |
| GeoSentiment.HeatColorAgrees | src/services/geoSentimentService.js:168-184 | the corrected colouring agrees with the written one except for intensities 0.7 and 0.2, which swap |
| GeoSentiment.Pushed | src/services/geoSentimentService.js:129-162 | each pushed row is a district in order with a positive denominator, built from its record |
| GeoSentiment.Row | src/services/geoSentimentService.js:149-160 | a row keeps the district's name, counters and tweet total; its intensity is one of the five bands and its colour is on the palette |
| GeoSentiment.HeatMap | src/services/geoSentimentService.js:126-165 | the heat map has as many rows as were pushed, at most one per district, and every row it holds is a pushed row |
| GeoSentiment.PushedExactly | src/services/geoSentimentService.js:129-132 | a district has a row if and only if it is visited and its three sentiment counters are not all zero |
| GeoSentiment.Insert | src/services/geoSentimentService.js:164 | inserting grows the list by one |
| GeoSentiment.SortByIntensity | src/services/geoSentimentService.js:164 | sorting keeps the length |
| GeoSentiment.InsertPermutes | src/services/geoSentimentService.js:164 | insertion adds exactly the new row |
| GeoSentiment.InsertSorted | src/services/geoSentimentService.js:164 | insertion keeps the list hottest first |
| GeoSentiment.SortSpec | src/services/geoSentimentService.js:164 | the sort is a permutation ordered by non-increasing intensity |
| GeoSentiment.HeatMapSorted | src/services/geoSentimentService.js:126-165 | the heat map holds exactly the pushed rows, hottest first |
| GeoSentiment.AlertFor | src/services/geoSentimentService.js:68-83 | an alert is ACTIVE, carries the verdict's severity and the district located from text and location |
| GeoSentiment.Where | src/services/geoSentimentService.js:193-194 | a filter keeps exactly the alerts that satisfy the test, and no others |
| GeoSentiment.WhereSnoc | src/services/geoSentimentService.js:193-205 | filtering a log with one more alert is filtering the log, then keeping the new alert exactly when it passes |
| GeoSentiment.Severities | src/services/geoSentimentService.js:199 | the severity of every alert, in log order |
| GeoSentiment.AlertDistricts | src/services/geoSentimentService.js:204 | the district of every alert, in log order |
| GeoSentiment.SeverityWhere | src/services/geoSentimentService.js:199 | the number of alerts kept by a severity filter is the number of times that severity occurs in the log |
| GeoSentiment.DistrictWhere | src/services/geoSentimentService.js:204 | the number of alerts kept by a district filter is the number of times that district occurs in the log |
| GeoSentiment.SummaryCounts | src/services/geoSentimentService.js:197-205 | each severity level counts the alerts of that severity, and each district counts the alerts located there |
| GeoSentiment.Recent | src/services/geoSentimentService.js:192 | the last ten alerts (or all, if fewer), newest first |
| GeoSentiment.LevelNames | src/data/antiNationalKeywords.js:84-109 | the severity names in table order |
| GeoSentiment.SummaryAsWritten | src/services/geoSentimentService.js:198 | as written the summary never returns: `severityLevels` is not defined in the file |
| GeoSentiment.AlertsSummary | src/services/geoSentimentService.js:187-208 | total is the alert count; one severity key per level and one district key per district; recent, critical and active as filtered; the counts themselves are `GeoSentiment.SummaryCounts` |
| GeoSentiment.AllActive | src/services/geoSentimentService.js:194 | when every alert is ACTIVE, as every created alert is, the active list is the whole log |
| GeoSentiment.WhereAll | src/services/geoSentimentService.js:193-194 | a filter every alert passes returns the list unchanged |
| GeoSentiment.SummaryAfterAppend | src/services/geoSentimentService.js:187-205 | one more alert adds one to the total and to its own severity, leaves every other severity as it was, adds one to its own district and nothing to the others, and heads the recent list |
| GeoSentiment.Matches | src/services/geoSentimentService.js:298-299 | a word count is at most the number of words |
| GeoSentiment.BasicSentiment | src/services/geoSentimentService.js:293-305 | positive iff more positive words match, negative iff more negative ones, neutral iff a tie |
| GeoSentiment.NoWordsNeutral | src/services/geoSentimentService.js:293-305 | a text with none of the listed words is neutral |
| GeoSentiment.NoMatches | src/services/geoSentimentService.js:298-299 | no listed word in the text gives a count of zero |
| GeoSentiment.DistrictFor | src/services/geoSentimentService.js:226-229 | the AI's district when it is a non-empty string, otherwise the extracted one |
| GeoSentiment.UnlocatedResult | src/services/geoSentimentService.js:231-243 | an unlocated tweet gets district Unknown, the AI's severity as threat level only when anti-national, and attention exactly when anti-national |
| GeoSentiment.LabelFor | src/services/geoSentimentService.js:246-249 | an anti-national verdict overrides the AI sentiment label |
| GeoSentiment.RiskLevel | src/services/geoSentimentService.js:336-337 | HIGH above 5 anti-national tweets, MEDIUM from 3 to 5, LOW at 2 or fewer |
| GeoSentiment.RiskLevels | src/services/geoSentimentService.js:321-343 | exactly the districts with scored tweets are reported, each with its risk level |
| GeoSentiment.RiskMonotone | src/services/geoSentimentService.js:336-337 | more anti-national tweets never lower the risk level |
| GeoSentiment.Order | src/services/geoSentimentService.js:14 | the district names in table order |
| GeoSentiment.GeoSentimentService.constructor | src/services/geoSentimentService.js:5-31 | every district starts with zero counters and no alerts; the alert log is empty |
| GeoSentiment.GeoSentimentService.UpdateDistrictSentiment | src/services/geoSentimentService.js:100-123 | the records become `Updated` of the old ones; the alert log is unchanged |
| GeoSentiment.GeoSentimentService.AnalyzeAntiNationalSentiment | src/services/geoSentimentService.js:61-97 | an alert is created and appended exactly when the verdict is anti-national with a severity other than NONE; records are unchanged |
| GeoSentiment.GeoSentimentService.GetDistrictSentimentHeatMap | src/services/geoSentimentService.js:126-165 | the loop returns the sorted heat map of the current records |
| GeoSentiment.GeoSentimentService.GetAntiNationalAlertsSummary | src/services/geoSentimentService.js:187-208 | the corrected summary of the current alert log |
| GeoSentiment.GeoSentimentService.ProcessTweetBasic | src/services/geoSentimentService.js:282-318 | null iff no district is found; otherwise the district, the word-count sentiment and confidence 50, with that district's record updated |
| GeoSentiment.GeoSentimentService.ProcessTweet | src/services/geoSentimentService.js:211-279 | unlocated tweets change nothing; located ones get the label, threat level and attention of the verdicts, an alert exactly when both verdicts raise one, and the district record updated, flagged iff the alert exists |
| GeoSentiment.GeoSentimentService.GetDistrictStatistics | src/services/geoSentimentService.js:321-343 | the risk level of each district with scored tweets |
| TopicGroups.NormalizeTopic | src/services/youtubeService.js:178 | a missing or "Unknown" topic is "Unknown", any other is trimmed |
| TopicGroups.NormalizeTopics | src/services/youtubeService.js:178 | one normalised topic per verdict, index for index |
| TopicGroups.FirstSimilar | src/services/youtubeService.js:188-194 | the first canonical topic similar to the topic, and none before it; none when no canonical topic is similar |
| TopicGroups.Step | src/services/youtubeService.js:182-198 | one step appends the topic's target to the map and only ever appends to the canonical list |
| TopicGroups.Canonicalize | src/services/youtubeService.js:178-199 | one map entry per topic; "Unknown" maps to itself; every entry is "Unknown" or canonical; canonical topics come from the input, are never "Unknown", and no later one is similar to an earlier one |
| TopicGroups.PrefixStable | src/services/youtubeService.js:182-199 | processing more topics never changes the mapping or the canonical list already built |
| TopicGroups.CanonicalizeSnoc | src/services/youtubeService.js:182-199 | the grouping of one more topic is one more loop step |
| TopicGroups.MapRule | src/services/youtubeService.js:183-197 | each topic maps to its target among the canonical topics seen before it |
| TopicGroups.TargetFixed | src/services/youtubeService.js:188-197 | with a reflexive similarity, a canonical topic is its own target at every point of the loop |
| TopicGroups.CanonicalFixed | src/services/youtubeService.js:195-197 | a topic that became canonical maps to itself |
| TopicGroups.CanonicalDistinct | src/services/youtubeService.js:195-196 | with a reflexive similarity no topic becomes canonical twice |
| TopicGroups.GroupTopics | src/services/youtubeService.js:179-199 | the loop over a mutable canonical list and index map computes `Canonicalize` |
| TopicGroups.AddTopic | src/services/youtubeService.js:181-198 | the per-topic callback performs exactly one grouping `Step`: "Unknown" maps to itself, a topic similar to a canonical one maps to the first such, any other becomes canonical |
| TopicGroups.FindSimilar | src/services/youtubeService.js:186-193 | the search with `break` finds a match exactly when some canonical topic is similar, and returns the first such index |
| TopicGroups.LabelAt | src/services/youtubeService.js:204-209 | a label takes the verdict's sentiment or "Neutral" and the mapped topic or "Unknown"; neither is empty |
| TopicGroups.Labels | src/services/youtubeService.js:178-199 | one mapped topic per verdict |
| TopicGroups.LabelTopics | src/services/youtubeService.js:201-213 | every label's topic is "Unknown" or a canonical topic |
| Paging.Bound | src/services/youtubeService.js:160 | a slice bound counts from the end when negative and is clamped to [0, length] |
| Paging.JsSlice | src/services/youtubeService.js:160 | the slice between the two resolved bounds, empty when they cross |
| Paging.Truncate | src/services/youtubeService.js:138 | `slice(0, max)` is the first min(max, length) entries, and always a prefix |
| Paging.WindowRange | src/services/youtubeService.js:157-160 | page p of size n is the range [(p-1)n, pn) of the scrape, clamped to its length |
| Paging.PageArithmetic | src/services/youtubeService.js:157-159 | the page's start plus its size is its end |
| Paging.WindowEmptyIff | src/services/youtubeService.js:161-163 | a page is empty exactly when the size is zero or the scrape ends before it starts |
| Paging.PagesTile | src/services/youtubeService.js:155-160 | pages 1 to k together are the first k*n entries of the scrape, nothing skipped or repeated |
| Youtube.FirstShorts | src/services/youtubeService.js:20 | the leftmost index at or after `from` where the Shorts pattern matches, or none anywhere after it |
| Youtube.ShortsId | src/services/youtubeService.js:20-22 | a captured Shorts id is eleven word or hyphen characters |
| Youtube.ValidateVideoUrl | src/services/youtubeService.js:16-28 | a Shorts URL becomes its watch URL; otherwise a non-empty URL containing "youtube.com/watch" passes unchanged; everything else is the invalid-URL error |
| Youtube.WatchLink | src/services/youtubeService.js:23 | the rewritten URL passes the watch check |
| Youtube.ShortsRewritten | src/services/youtubeService.js:20-23 | a Shorts URL with a valid id is rewritten to the watch URL of that id, whatever follows it |
| Youtube.Navigation | src/services/youtubeService.js:36-55 | up to three attempts with a 3 s wait between failed ones; loaded iff some attempt succeeds; after three failures the error carries the last message |
| Youtube.Navigate | src/services/youtubeService.js:37-55 | the retry loop computes `Navigation` |
| Youtube.FetchAll | src/services/youtubeService.js:15-146 | succeeds iff the URL validates, navigation loads and the page raises no error afterwards (such as the wait for the comments section timing out); returns at most `maxComments` threads, a prefix of the scrape |
| Youtube.ThreadTexts | src/services/youtubeService.js:167-173 | a thread contributes its comment and then its replies, in order |
| Youtube.FlattenPrefix | src/services/youtubeService.js:165-174 | the texts of the first i threads are a prefix of all texts |
| Youtube.FlattenStep | src/services/youtubeService.js:167-173 | flattening one more thread appends its texts and moves the next offset by one plus its reply count |
| Youtube.FlattenAt | src/services/youtubeService.js:165-174 | thread i's comment sits at its offset, reply j right after it at offset + 1 + j |
| Youtube.Labelled | src/services/youtubeService.js:202-213 | one labelled thread per thread |
| Youtube.LabelledKeepsThreads | src/services/youtubeService.js:202-213 | labelling only adds the two fields: comments, replies, counts and order are kept |
| Youtube.LabelsAtOwnIndex | src/services/youtubeService.js:201-213 | each comment and reply gets the verdict and topic at the flattened index of its own text |
| Youtube.Annotate | src/services/youtubeService.js:201-213 | the running-index loop computes `Labelled` |
| Youtube.AnnotateReplies | src/services/youtubeService.js:207-212 | reply j gets the verdict and topic at the shared counter plus j, and the counter ends past the last reply |
| Youtube.CommentsWithSentiment | src/services/youtubeService.js:155-215 | a failed scrape is passed on; an empty page gives no threads without classifying; otherwise it fails exactly when the batch classifier throws, and else gives the page window labelled from the batch verdicts of its flattened texts |
| GoogleReviews.ValidatePlaceUrl | src/services/googleReviewService.js:16-18 | a URL passes, unchanged, iff it contains "google.com/maps/place/"; otherwise the invalid-URL error |
| GoogleReviews.FetchAll | src/services/googleReviewService.js:15-115 | succeeds iff the URL is valid and the browser raised nothing; returns at most `maxReviews` reviews, a prefix of the scrape; a browser error is wrapped in "Failed to scrape Google Reviews: " |
| GoogleReviews.Texts | src/services/googleReviewService.js:134 | one text per review, its review body |
| GoogleReviews.LabelReviews | src/services/googleReviewService.js:161-165 | one labelled review per review |
| GoogleReviews.LabelledReviews | src/services/googleReviewService.js:136-165 | review i keeps its fields and gets verdict i's sentiment (or "Neutral") and its grouped topic, which is "Unknown" or canonical |
| GoogleReviews.ReviewsWithSentiment | src/services/googleReviewService.js:124-167 | a bad URL or a browser error fails; an empty page gives no reviews; otherwise it fails exactly when the batch classifier throws, and else gives the page window, review for review, each labelled from the batch verdicts of the page |
| Instagram.ValidateReelUrl | src/services/instagramService.js:10-16 | a URL passes, unchanged, iff it contains "instagram.com/reel/"; otherwise the invalid-URL error |
| Instagram.FirstReel | src/services/instagramService.js:56 | the leftmost index at or after `from` where "reel/" is followed by a shortcode character, or none after it |
| Instagram.RunEnd | src/services/instagramService.js:56 | the end of the maximal run of characters other than "/" and "?" starting at k |
| Instagram.Shortcode | src/services/instagramService.js:56-58 | a shortcode is a non-empty run without "/" or "?"; none iff the pattern matches nowhere |
| Instagram.ShortcodeOfReelLink | src/services/instagramService.js:56-58 | the shortcode of a reel link is the code that follows "reel/", whatever comes after a "/" or "?" |
| Instagram.GatheredStep | src/services/instagramService.js:92-96 | each reply's comments are appended after those gathered before |
| Instagram.ReachedNext | src/services/instagramService.js:66-99 | one more round keeps the loop's account of the requests sent and comments gathered |
| Instagram.ReachedFirsts | src/services/instagramService.js:68 | every request asks for between 1 and 50 comments |
| Instagram.PullKeepsPromise | src/services/instagramService.js:66-103 | from any reachable state the loop keeps its promise: the requests it sends, and what it returns or why it fails |
| Instagram.FetchComments | src/services/instagramService.js:62-103 | the requests are those of the loop, each for 1 to 50 comments; a finished run returns the first `maxComments` gathered comments and stops only when it has enough or there is no next page; a reply without the expected structure fails the run |
| Instagram.FirstRequest | src/services/instagramService.js:68-69 | the first request asks for min(maxComments, 50) comments with no cursor |
| Instagram.PullComments | src/services/instagramService.js:62-103 | the while loop computes `FetchComments` |
| Instagram.Texts | src/services/instagramService.js:120 | one text per comment |
| Instagram.LabelComments | src/services/instagramService.js:148-152 | one labelled comment per comment |
| Instagram.LabelledComments | src/services/instagramService.js:123-152 | comment i keeps its fields and gets verdict i's sentiment (or "Neutral") and its grouped topic, which is "Unknown" or canonical |
| Instagram.CommentsWithSentiment | src/services/instagramService.js:9-154 | an invalid URL or a missing shortcode is an error; once the comments are fetched, it fails exactly when the batch classifier throws, and else gives the fetched comments in order, each labelled, at most `maxComments` of them |
| CsvExport.DoubleQuotes | convert_to_csv.js:73 | doubling the quotes never shortens a field |
| CsvExport.CollapseDoubled | convert_to_csv.js:73 | collapsing doubled quotes undoes the doubling, and every quote in the result is paired |
| CsvExport.EscapeField | convert_to_csv.js:64-77 | a field without comma, quote, CR or LF is unchanged; any other is wrapped in quotes with its quotes paired; the result never needs quoting unless quoted; unescaping gives the field back |
| CsvExport.Escape | convert_to_csv.js:64-67 | null or undefined become the empty field; anything else unescapes back to itself |
| CsvExport.ItemRows | convert_to_csv.js:26-53 | an item gives one row per news article, one bare row without news, none when tweet or sentiment is empty |
| CsvExport.ConcatMapAppend | convert_to_csv.js:22-56 | the rows of two lists of categories (or items) are the rows of each, in order |
| CsvExport.ConcatMapCount | convert_to_csv.js:22-56 | the number of rows is the sum of the per-element counts |
| CsvExport.EntryRowCount | convert_to_csv.js:22-56 | a category gives as many rows as its items' weights add up to |
| CsvExport.RowCount | convert_to_csv.js:8-58 | one header row plus the total weight of all categories |
| CsvExport.DataRowsAppend | convert_to_csv.js:22 | the rows follow the order of the categories |
| CsvExport.NotArrayAddsNothing | convert_to_csv.js:23 | a category whose value is not an array adds no row |
| CsvExport.InvalidItemAddsNothing | convert_to_csv.js:26 | an item lacking tweet or sentiment adds no row |
| CsvExport.OneBareRow | convert_to_csv.js:42-52 | a category with one item without news gives the header and one bare row |
| CsvExport.NewlineRowLines | convert_to_csv.js:58-73 | a tweet holding a newline is quoted, and its row text still spans the newline |
| CsvExport.NewlineSplitsRow | convert_to_csv.js:58 | rows joined by LF: two rows whose tweet has a newline split into three lines |
| CsvExport.PushItem | convert_to_csv.js:25-53 | the item loop appends exactly the lines of the item's rows |
| CsvExport.PushEntry | convert_to_csv.js:22-56 | the category loop appends exactly the lines of the category's rows |
| CsvExport.Convert | convert_to_csv.js:8-59 | the loops compute `ConvertJsonToCsv`: the header line and the lines of every row, joined by LF |
| CsvExport.ConvertJsonToCsv | convert_to_csv.js:8-59 | the text starts with the header line, the header fields joined by commas |
| JsObject.Keys | convert_to_csv_advanced.js:25 | the keys in insertion order, one per entry |
| JsObject.Get | convert_to_csv_advanced.js:35-36 | a lookup is undefined exactly for a key never assigned |
| JsObject.Set | convert_to_csv_advanced.js:27 | assigning an existing key keeps the key order; a new key goes last |
| JsObject.GetSet | convert_to_csv_advanced.js:27 | after an assignment the key reads the new value and every other key reads as before |
| JsObject.SetSet | convert_to_csv_advanced.js:27 | a second assignment to the same key overrides the first |
| JsObject.SetDistinct | convert_to_csv_advanced.js:27 | assignment keeps the keys distinct |
| JsObject.CountTally | convert_to_csv_advanced.js:35-36 | `(m[k] \|\| 0) + 1` adds one to k's count and leaves every other count |
| JsObject.TotalBySet | convert_to_csv_advanced.js:27 | an assignment changes a weighted total by the new value's weight less the old one's |
| JsObject.TotalTally | convert_to_csv_advanced.js:35-36 | a tally adds one to the sum of the counts |
| JsObject.SameEntries | convert_to_csv_advanced.js:25-27 | two distinct-key objects with the same keys in the same order and the same lookups are equal |
| CsvStats.CountItemsTotals | convert_to_csv_advanced.js:29-43 | counting items adds one tweet per valid item and its articles, and leaves the category fields |
| CsvStats.CountItemsTallies | convert_to_csv_advanced.js:33-36 | each sentiment's count grows by its number of occurrences among the valid items |
| CsvStats.CountItemsConsistent | convert_to_csv_advanced.js:29-43 | the sentiment counts stay duplicate-free and keep summing to the tweet count |
| CsvStats.CountItemsEffect | convert_to_csv_advanced.js:29-43 | the combined effect of counting a run of items |
| CsvStats.CountEntryEffect | convert_to_csv_advanced.js:25-45 | an array category also records its length in the category distribution; any other category adds nothing |
| CsvStats.CountDataEffect | convert_to_csv_advanced.js:25-45 | counting the whole object adds its valid tweets, their sentiments and articles, and assigns every array category's length |
| CsvStats.Generated | convert_to_csv_advanced.js:22-48 | the category total is set to the number of keys, and the tweet and article totals grow by the valid tweets and their articles |
| CsvStats.AssignLengthsGet | convert_to_csv_advanced.js:27 | a category reads the length of its last array value, or what it held before |
| CsvStats.AssignLengthsDistinct | convert_to_csv_advanced.js:27 | the category distribution keeps distinct keys |
| CsvStats.AssignLengthsKeys | convert_to_csv_advanced.js:27 | re-assigning lengths to keys already present keeps the key order |
| CsvStats.LastLengthPrefix | convert_to_csv_advanced.js:27 | a category seen as an array keeps a recorded length |
| CsvStats.AssignLengthsTwice | convert_to_csv_advanced.js:27 | assigning the same lengths twice is the same as once |
| CsvStats.StatsAfterOneCall | convert_to_csv_advanced.js:22-48 | after one call on a new converter: all keys are categories; tweets, sentiment counts and articles are those of the valid items; the counts sum to the tweets; each category has its array length |
| CsvStats.LastLengthOfKey | convert_to_csv_advanced.js:27 | with distinct keys an array category's count is its number of items, valid or not |
| CsvStats.SecondCallDoubles | convert_to_csv_advanced.js:22-48 | a second call doubles the tweet, article and sentiment counts but leaves the categories: `generateStats` is not idempotent |
| CsvStats.CountItemsSnoc | convert_to_csv_advanced.js:29-43 | the item loop counts one more item per step |
| CsvStats.CountDataSnoc | convert_to_csv_advanced.js:25-45 | the category loop counts one more category per step |
| CsvStats.CountValidItem | convert_to_csv_advanced.js:30-41 | a valid item adds one tweet, one tally and, if it has an article list, its articles |
| CsvViews.ItemTweets | convert_to_csv_advanced.js:125-126 | the valid items of a category, each tagged with it |
| CsvViews.ValidTweets | convert_to_csv_advanced.js:123-126 | the valid items of the whole object, in category and item order |
| CsvViews.FlatRows | convert_to_csv_advanced.js:131-156 | every row of an item's block has the seven flattened columns |
| CsvViews.ArticleRows | convert_to_csv_advanced.js:132-144 | one row per article, seven columns each |
| CsvViews.ArticleRowsAt | convert_to_csv_advanced.js:132-142 | row i of the article block is the row of article i with News_Index i + 1 |
| CsvViews.FlatTable | convert_to_csv_advanced.js:121-160 | every flattened row has seven columns |
| CsvViews.StripFlatRows | convert_to_csv_advanced.js:131-156 | dropping the two index columns of an item's flattened block gives its standard rows |
| CsvViews.StripFlatTable | convert_to_csv_advanced.js:121-160 | dropping the index columns of the whole table gives the standard rows of the valid items |
| CsvViews.ValidTweetsRows | convert_to_csv_advanced.js:67-98 | the standard rows are exactly the rows of the valid items |
| CsvViews.FlatMatchesStandard | convert_to_csv_advanced.js:106-163 | the flattened table without its two index columns is the standard table's body |
| CsvViews.FlatTablePrefix | convert_to_csv_advanced.js:121-160 | the rows of the first m tweets are a prefix of the table |
| CsvViews.TweetBlock | convert_to_csv_advanced.js:127-156 | the n-th valid item's block follows the blocks of the items before it |
| CsvViews.BlockIndexes | convert_to_csv_advanced.js:127-153 | every row of the n-th valid item's block has Tweet_Index n; News_Index runs 1, 2, … over its articles, or is 0 without news |
| CsvViews.FlatLinesTable | convert_to_csv_advanced.js:119-162 | the flattened text is the header and the table, one line each |
| CsvViews.FlattenedCsv | convert_to_csv_advanced.js:106-163 | the flattened text starts with its header line |
| CsvViews.SummaryTable | convert_to_csv_advanced.js:209-218 | one summary row per key |
| CsvViews.SummaryLinesTable | convert_to_csv_advanced.js:178-220 | the summary text is the header and one line per key |
| CsvViews.SummaryCsv | convert_to_csv_advanced.js:168-221 | the summary text starts with its header line |
| CsvViews.AddTweetInPlace | convert_to_csv_advanced.js:189-202 | creating the entry with zero counts when the key is new and then updating it is adding the tweet |
| CsvViews.SummarizeSnoc | convert_to_csv_advanced.js:184-203 | each valid item updates the summary in turn |
| CsvViews.TweetKeys | convert_to_csv_advanced.js:187 | the key of each valid item, in order |
| CsvViews.SummaryKeys | convert_to_csv_advanced.js:182-206 | the summary's keys are distinct, in the order they were first seen |
| CsvViews.SummarySpellsKeys | convert_to_csv_advanced.js:187-196 | every entry's category and sentiment spell its key |
| CsvViews.SummaryTweetTotal | convert_to_csv_advanced.js:198 | the Tweet_Count values add up to the number of valid items |
| CsvViews.KeysCollide | convert_to_csv_advanced.js:187 | distinct (category, sentiment) pairs can share a key: ("a_b", "c") and ("a", "b_c") fall in one entry that keeps the first pair and counts both |
| CsvViews.ValidTweetsCount | convert_to_csv_advanced.js:126 | the valid items are as many as `generateStats` counts |
| CsvViews.SummaryMatchesStats | convert_to_csv_advanced.js:168-221 | the summary's tweet counts add up to the tweet total of `generateStats` |
| CsvAdvanced.CategoryTexts | convert_to_csv_advanced.js:253-255 | one text per category, in distribution order |
| CsvAdvanced.CategoryLinesTerminated | convert_to_csv_advanced.js:252-255 | the category block is each text followed by a newline |
| CsvAdvanced.CategoryBlockLines | convert_to_csv_advanced.js:252-255 | for categories without newlines the block splits into exactly one line per category, naming it and its count |
| CsvAdvanced.CategoryLinesSnoc | convert_to_csv_advanced.js:253-255 | the loop adds one line per category |
| CsvAdvanced.SentimentLinesSnoc | convert_to_csv_advanced.js:258-261 | the loop adds one line per sentiment with its percentage |
| CsvAdvanced.Converter.constructor | convert_to_csv_advanced.js:8-17 | a converter over the data with all statistics at zero |
| CsvAdvanced.Converter.GenerateStats | convert_to_csv_advanced.js:22-48 | the statistics become `Generated` of the old ones (they accumulate) and are returned; the data is unchanged |
| CsvAdvanced.Converter.CountCategory | convert_to_csv_advanced.js:26-44 | one category's pass updates the statistics by `CountEntry` |
| CsvAdvanced.Converter.GenerateReport | convert_to_csv_advanced.js:244-264 | runs `generateStats` and returns the report of the statistics it leaves |
| CsvAdvanced.Converter.ToStandardCsv | convert_to_csv_advanced.js:53-101 | the same text as the plain converter |
| CsvAdvanced.Converter.ToFlattenedCsv | convert_to_csv_advanced.js:106-163 | the loops produce `FlattenedCsv` of the data |
| CsvAdvanced.Converter.ToSummaryCsv | convert_to_csv_advanced.js:168-221 | the loops produce `SummaryCsv` of the data |
| CsvAdvanced.SummarizeCategory | convert_to_csv_advanced.js:182-206 | one category's pass adds its valid items to the summary |
| CsvAdvanced.PushFlatItem | convert_to_csv_advanced.js:131-156 | one item's pass appends exactly the lines of its block |
| KeywordFile.LexTotal | python-scraper/manage_scraper_keywords.py:33 | Python's string order is total |
| KeywordFile.LexAntisymmetric | python-scraper/manage_scraper_keywords.py:33 | strings ordered both ways are equal |
| KeywordFile.LexTransitive | python-scraper/manage_scraper_keywords.py:33 | the order is transitive |
| KeywordFile.HasLeast | python-scraper/manage_scraper_keywords.py:33 | a non-empty set of strings has a least element |
| KeywordFile.Least | python-scraper/manage_scraper_keywords.py:33 | the least keyword of a non-empty set |
| KeywordFile.Sorted | python-scraper/manage_scraper_keywords.py:33 | `sorted(keywords)`: every keyword once, nothing else, strictly ascending |
| KeywordFile.KeywordsOf | python-scraper/manage_scraper_keywords.py:17-20 | every keyword read is stripped, non-empty and not a comment |
| KeywordFile.Parse | python-scraper/manage_scraper_keywords.py:12-21 | every keyword read from the text is stripped, non-empty and not a comment |
| KeywordFile.FileText | python-scraper/manage_scraper_keywords.py:23-36 | the written text is never empty and ends in a line break |
| KeywordFile.StripInside | python-scraper/manage_scraper_keywords.py:18 | stripping only removes characters |
| KeywordFile.KeywordsOfSnoc | python-scraper/manage_scraper_keywords.py:17-20 | each line adds its stripped text when kept |
| KeywordFile.KeywordsOfAppend | python-scraper/manage_scraper_keywords.py:17-20 | the keywords of two runs of lines are the union of each |
| KeywordFile.StripKeepsFirst | python-scraper/manage_scraper_keywords.py:18-19 | a line starting with a non-space character keeps it after stripping |
| KeywordFile.CommentsAddNothing | python-scraper/manage_scraper_keywords.py:19 | comment lines contribute no keyword |
| KeywordFile.ReadableLines | python-scraper/manage_scraper_keywords.py:17-20 | lines that are readable keywords read back as exactly themselves |
| KeywordFile.HeaderComments | python-scraper/manage_scraper_keywords.py:26-29 | the four header lines are comments |
| KeywordFile.ActiveLineComment | python-scraper/manage_scraper_keywords.py:32 | the "Currently active keywords" line is a comment |
| KeywordFile.StoppedLineComment | python-scraper/manage_scraper_keywords.py:36 | the "No active keywords" line is a comment |
| KeywordFile.ReadBack | python-scraper/manage_scraper_keywords.py:12-36 | comment lines followed by keyword lines read back as the set of those keywords |
| KeywordFile.WriteThenRead | python-scraper/manage_scraper_keywords.py:12-36 | reading the file written for a set of readable keywords gives back that set |
| KeywordFile.SortedElements | python-scraper/manage_scraper_keywords.py:33-34 | the written keyword lines are exactly the keywords |
| KeywordFile.StoredIsReadable | python-scraper/manage_scraper_keywords.py:12-21 | every keyword read from a file, or from none, is readable and has no newline |
| KeywordFile.ClearThenRead | python-scraper/manage_scraper_keywords.py:65-67 | after `clear` the file reads back as no keywords |
| KeywordFile.AddTwice | python-scraper/manage_scraper_keywords.py:38-42 | adding the same readable keyword twice leaves the file as adding it once |
| KeywordFile.KeywordStore.constructor | python-scraper/manage_scraper_keywords.py:10 | a store over the given file contents (or no file) |
| KeywordFile.KeywordStore.ReadKeywords | python-scraper/manage_scraper_keywords.py:12-21 | the loop reads `Stored` of the file; the file is unchanged |
| KeywordFile.KeywordStore.WriteKeywords | python-scraper/manage_scraper_keywords.py:23-36 | the file becomes the header and the sorted keywords, or the stopped line |
| KeywordFile.KeywordStore.AddKeyword | python-scraper/manage_scraper_keywords.py:38-43 | the file becomes the text for the stored keywords plus the new one |
| KeywordFile.KeywordStore.RemoveKeyword | python-scraper/manage_scraper_keywords.py:45-53 | found iff the keyword is stored; then the file is rewritten without it; otherwise it is untouched |
| KeywordFile.KeywordStore.ClearKeywords | python-scraper/manage_scraper_keywords.py:65-68 | the file becomes the text for no keywords |
| Auth.Or | src/middleware/auth.js:60 | `a \|\| b` is truthy iff either operand is |
| Auth.SplitSpace | src/middleware/auth.js:7 | `split(' ')` gives at least one piece and no piece holds a space |
| Auth.SplitSpaceNone | src/middleware/auth.js:7 | a string without spaces splits into itself |
| Auth.SplitSpaceAt | src/middleware/auth.js:7 | splitting at a space splits each side |
| Auth.Token | src/middleware/auth.js:6-7 | the second space-separated part of the header, when there is one; no token has a space |
| Auth.Authenticate | src/middleware/auth.js:4-29 | the request goes on exactly when a user is attached; every refusal is 401 |
| Auth.BearerToken | src/middleware/auth.js:6-7 | "Bearer <token>" yields the token |
| Auth.AuthenticatedOnlyByToken | src/middleware/auth.js:9-24 | a request passes iff it carries a non-empty token that verifies, and then carries exactly the verified user |
| Auth.NoSpaceNoToken | src/middleware/auth.js:7-11 | a header without a space is refused with 401 |
| Auth.CheckRole | src/middleware/auth.js:31-52 | 401 without a user; otherwise pass or 403 |
| Auth.CompanyAdminPassesAnyRoleCheck | src/middleware/auth.js:38-41 | a COMPANY_ADMIN passes whatever roles are required |
| Auth.RoleCheckIff | src/middleware/auth.js:37-51 | another user passes iff its role is one of those required, and is otherwise refused with 403 |
| Auth.RoleCheckMonotone | src/middleware/auth.js:31-52 | widening the required roles never refuses a user who passed |
| Auth.CheckCompanyAccess | src/middleware/auth.js:54-83 | the outcome is to pass or one of 400, 401, 403, 500 |
| Auth.CompanyAccessSafety | src/middleware/auth.js:59-79 | whoever passes belongs to the requested company, and a write passes only for its COMPANY_ADMIN |
| Auth.CompanyMethods | src/middleware/auth.js:65-77 | in its own company a user may GET and PATCH; POST, PUT and DELETE only as COMPANY_ADMIN, otherwise 403 |
| Auth.OtherCompanyRefused | src/middleware/auth.js:71-79 | a user of another company is refused with 403 |
| Auth.CheckTeamAccess | src/middleware/auth.js:85-138 | the outcome is to pass or one of 400, 401, 403, 404, 500 |
| Auth.TeamAccessSafety | src/middleware/auth.js:99-133 | whoever passes is the COMPANY_ADMIN of the team's company, or a TEAM_ADMIN or TEAM_MEMBER of that team |
| Auth.TeamWriteSafety | src/middleware/auth.js:108-133 | a write passes only for the company admin, or for the team admin on a members or keywords path |
| Auth.TeamCompanyAdmin | src/middleware/auth.js:108-110 | a COMPANY_ADMIN passes exactly for a team of its own company, and gets 403 otherwise |
| Auth.TeamOutsiderRefused | src/middleware/auth.js:133 | anyone neither that admin nor on the team gets 403 |
| Auth.TeamLookupErrors | src/middleware/auth.js:99-105 | a missing team is 404 and a failed lookup 500, whatever the role |
| Auth.TeamMemberReadsOnly | src/middleware/auth.js:126-131 | a TEAM_MEMBER of the team passes exactly the GET requests |
| Auth.TeamAdminReads | src/middleware/auth.js:113-123 | a TEAM_ADMIN of the team passes every request that is not a write |
| Auth.CheckUserRoleUpdateAccess | src/middleware/auth.js:140-182 | the outcome is to pass or one of 400, 401, 403, 404, 500 |
| Auth.CompanyAdminUpdatesAnyCompany | src/middleware/auth.js:160-170 | a COMPANY_ADMIN may update a user of any company, since the company comparison is commented out |
| Auth.RoleUpdateSafety | src/middleware/auth.js:149-177 | whoever passes is a COMPANY_ADMIN, or a TEAM_ADMIN of the target's team; a missing target is 404 |
| JsText.TrimStart | src/services/geminiService.js:105 | leading JavaScript white space removed, and only that: the rest is a suffix starting with a non-space |
| JsText.TrimEnd | src/services/geminiService.js:105 | trailing JavaScript white space removed, and only that: the rest is a prefix ending with a non-space |
| JsText.Trim | src/services/geminiService.js:105-106 | `trim()` leaves no white space at either end |
| JsText.TrimIsBothEnds | src/services/geminiService.js:105-106 | trimming is trimming the start and then the end |
| JsText.TrimIdempotent | src/services/geminiService.js:67 | trimming twice is trimming once |
| JsText.TrimEmptyIff | src/services/geminiService.js:67 | a line trims to empty exactly when it is all white space |
| JsText.ToLower | src/services/geoSentimentService.js:35 | `toLowerCase()` maps each character, keeping the length |
| JsText.ToUpper | src/app.js:334 | `toUpperCase()` maps each character, keeping the length |
| JsText.Split | src/services/fileService.js:37 | `split('\n')` gives at least one piece and no piece holds a newline |
| JsText.SplitTerminated | src/services/fileService.js:37 | lines each ended by a newline split back into those lines and one empty tail |
| JsText.Join | convert_to_csv.js:58 | `join` of one part is that part, and a non-empty first part starts the result |
| JsText.JoinPair | convert_to_csv.js:40 | two parts join around the separator |
| JsText.NatToString | convert_to_csv_advanced.js:136 | a count prints as decimal digits that read back as the count, without a leading zero |
| JsText.PyStrip | python-scraper/manage_scraper_keywords.py:18 | Python's `strip()` leaves no white space at either end and never lengthens |
| JsText.PyStripOfStripped | python-scraper/manage_scraper_keywords.py:18 | a stripped string strips to itself |

## Left out

- Network, browser and database: Gemini and Grok requests, Google News RSS, Selenium and Puppeteer sessions, logins, scroll reads, the socket server of `scraper_server.py`, the Express routes and the ORM. Their results are parameters or input sequences. Sleeps and timeouts are recorded as durations.
- Foreign code: `string-similarity` is an abstract `similar` predicate; `JSON.parse` is an input function giving an optional record; md5 and the time stamp in `get_unique_filename` are left out. Most regular expressions the code uses are written out as string functions; the numbered-list parsing of a batch reply is not (next line).
- `Gemini.BatchAsWritten` takes the verdicts that the numbered-list regular expression and its line-by-line fallback read out of the batch reply (src/services/geminiService.js:275-293) as the input `parsed`; that parsing is not modelled.
- `Gemini.Batch` takes the parsed verdicts as an input too.
- `Gemini.AnalyzeSentimentsBatch` takes the parsed verdicts as an input too.
- `Youtube.CommentsWithSentiment` takes the batch classifier as a parameter that gives the verdicts or the message it throws. Why it throws (a request that gives up, a surplus verdict) is modelled in `Retry` and `Gemini`, not here.
- `GoogleReviews.ReviewsWithSentiment` takes the batch classifier as the same kind of parameter.
- `Instagram.CommentsWithSentiment` takes the batch classifier as the same kind of parameter.
- Ids, coordinates, dates, `Math.random` ids and log messages (`console.log`, `print`) are not modelled. So is the `email` field of a user.
- Floating point: ratios and percentages are exact rationals or integer cross-multiplication. The `toFixed` text of `generateReport` is a parameter `percent`, and the percentages of `getDistrictStatistics` are left out (only its risk levels are modelled).
- Strings are sequences of characters, not UTF-16 units. `JsText.ToLower` and `JsText.ToUpper` fold ASCII letters only; Devanagari has no case.
- `KeywordFile.Parse` splits on "\n" only, not on the other line boundaries of Python's universal newlines.
- `KeywordFile.AddTwice` holds only for readable keywords without a newline. A keyword with surrounding white space, or one starting with "#", is stored as something else and adding it is not idempotent.
- The command-line `main` of `manage_scraper_keywords.py` and `list_keywords`, which only prints `sorted(keywords)`, are left out. The order it prints is `KeywordFile.Sorted`.
- `JsObject` keeps keys in first-assignment order. The different order JavaScript gives to integer-like keys is not modelled. The summary keys of `toSummaryCsv` always contain "_", but categories and sentiments that look like integers are outside the model.
- `CsvExport.Escape` takes strings or null/undefined. `String(field)` for numbers or objects is not modelled.
- `CsvAdvanced.Converter.GenerateStats` returns a copy of the statistics. The source returns `this.stats` itself, so later calls also change an earlier caller's object.
- `CsvAdvanced.Converter.ToStandardCsv` is specified to produce the same text as `convertJsonToCsv`. The two source bodies are the same loop.
- `GoogleReviews.FetchAll` takes the reviews as scraped. Parsing the rating text and the fallbacks for opening the review panel are browser work.
- `Youtube.FetchAll` models the URL check, the navigation retries and the final truncation. Scrolling, the early stop and the reply-button clicks are browser work, so the scrape is an input.
- `Instagram.FetchComments` is bounded by the replies given. A run that uses up the list without finishing ends as `Unfinished`.
- `Auth.Authenticate` takes `jwt.verify` as a parameter. Values are missing, strings or numbers; NaN and objects are not values. The database lookups of the team and user checks are parameters that find a record, find nothing or fail.
- `Auth.CheckUserRoleUpdateAccess` lets any COMPANY_ADMIN pass, as the source does: the company comparison is commented out there.
- `GeoSentiment.GeoSentimentService.ProcessTweet` does not fall back to `processTweetBasic` when `comprehensiveAnalysis` fails. Both analyses it combines catch their own errors, so the model takes their verdicts as inputs. The catch is also reached when `updateDistrictSentiment` throws, which happens only for a district name inherited from `Object.prototype` (next lines); such names are outside the model.
- `GeoSentiment.DistrictFor` accepts any non-empty district the AI names. A name inherited from `Object.prototype`, such as "constructor", is outside the model: in JavaScript the record lookup finds the inherited value, the counter update throws and the service falls back to `processTweetBasic`, while the model reads the name as an unknown district.
- `GeoSentiment.GeoSentimentService.UpdateDistrictSentiment` treats every name missing from the table as unknown. Names inherited from `Object.prototype` are not modelled.
- `JsObject.Get` models a plain object as its own keys only. Keys naming `Object.prototype` properties (`constructor`, `toString`, `__proto__`, …) read as inherited values in JavaScript and are outside the model, as is assigning to `__proto__`.
- `CsvStats.CountItem` tallies sentiments with `JsObject.Get`. A sentiment such as "toString" makes `(m[s] || 0) + 1` a string in JavaScript; such sentiments are outside the model.
- `ResultsStore.AppendResultsToJson` files rows under their topic in a map of own keys. A topic naming an `Object.prototype` property ("constructor", "toString", "__proto__", …) is outside the model: in JavaScript `!data[topic]` finds the inherited value, `data[topic].push` throws, the catch swallows the error and no JSON is written.
- `ResultsStore.Merged` and `ResultsStore.MergeGroups` treat every topic as an own key of the stored document, so topics naming `Object.prototype` properties are outside them as well. In JavaScript the push onto such a topic throws.
- `ResultsStore.GroupRows` groups a topic naming an `Object.prototype` property like any other. In JavaScript `jsonOutput[topic].push` throws there; such topics are outside the model.
- `ResultsStore.WriteResults` writes both files for every batch whose rows carry news lists. A topic naming an `Object.prototype` property makes the first pass throw before anything is written in JavaScript; such topics are outside the model.
- `TweetProcessing.EveryResultFiled` relies on the same map of own keys, so it says nothing about topics naming `Object.prototype` properties.
- `CsvStats.CountEntry` assigns a category's length with `JsObject.Set`. A category of "__proto__" writes onto `Object.prototype` in JavaScript; such categories are outside the model.
- `CsvViews.AddTweet` keys the summary with `JsObject.Get` and `JsObject.Set`. A key of "__proto__" (category "_", sentiment "proto__") creates no entry in JavaScript and writes onto `Object.prototype`; such keys are outside the model.
- `AiThreat` models only the threat level and the attention flag of `comprehensiveAnalysis`. The record wrapping, ids, time stamps and `Promise.all` are left out.
- `GeoSentiment.ExtractDistrict`: the concrete neighbour examples ("gondia" to Balaghat, "jhansi" to Datia, "sonbhadra" to Singrauli) are not proved. Each would need every keyword of all fifty districts evaluated. The general rule is `GeoSentiment.LocateNeighbourFallback`.
- `GeoSentiment.DharInsideWords` does not prove that "aadhar" resolves to Dhar itself. That needs every keyword of the 33 districts declared before Dhar evaluated against the text, as for the neighbour examples above.
- `GeoSentiment.SortByIntensity` is a stable insertion sort. JavaScript's `sort` is also stable, but the order among equal intensities is not otherwise stated.
- `ScrapeSession.Scraper.SearchAndScrape` writes a keyword's seen set once per scroll pass rather than once per tweet. The set after each pass is the same.
- `GeoSentiment.Row` paints with the corrected `GeoSentiment.HeatColor`, not with the source's table `GeoSentiment.ColorAsWritten`, which swaps the colours of intensities 0.7 and 0.2 (see Findings); rows, intensities and order are the source's.
- `GeoSentiment.Pushed` uses `GeoSentiment.Row`, so it carries the corrected colours as well.
- `GeoSentiment.HeatMap` uses `GeoSentiment.Row`, so it carries the corrected colours as well.
- `GeoSentiment.HeatMapSorted` uses `GeoSentiment.Row`, so it carries the corrected colours as well.
- `GeoSentiment.GeoSentimentService.GetDistrictSentimentHeatMap` uses `GeoSentiment.Row`, so it carries the corrected colours as well.
- `AiThreat.ParseThreat` stores the corrected clamp `AiThreat.Confidence`, which reads NaN as 0. The source stores NaN when the reply's confidence is text that `Number` cannot read (`AiThreat.ConfidenceAsWritten`; see Findings). Every other confidence is the same in both.
- `AiThreat.AnalyzeThreat` stores the corrected clamp too, as `AiThreat.ParseThreat` does.
- `AiThreat.ParseGeo` stores the corrected clamp too, as `AiThreat.ParseThreat` does.
- `AiThreat.AnalyzeGeo` stores the corrected clamp too, as `AiThreat.ParseThreat` does.
- `ScraperServer.CollectVideos` uses the corrected poster check (`ScraperServer.AddVideos`). The source's check (`ScraperServer.AddVideosAsWritten`) also stores a video under a poster URL that is already stored as a URL (see Findings).
- `ScraperServer.ExtractMedia` collects videos with the corrected poster check, as `ScraperServer.CollectVideos` does.
- `ScraperServer.ScanPass` collects videos with the corrected poster check, as `ScraperServer.CollectVideos` does.
- `ScraperServer.SearchAndScrape` collects videos with the corrected poster check, as `ScraperServer.CollectVideos` does.
- `TweetMarkdown` round trips hold for single-line tweet text, which is the case the reader keeps intact.
- `GeoSentiment.GeoSentimentService.GetAntiNationalAlertsSummary` returns the corrected summary `GeoSentiment.AlertsSummary`. As written, `getAntiNationalAlertsSummary` always throws at `severityLevels` (src/services/geoSentimentService.js:198); that behaviour is `GeoSentiment.SummaryAsWritten`.
- `TweetProcessing.TweetProcessor.ProcessTweets` reads the busy flag once, at entry, and runs the batch to completion. Two calls that overlap across the `await`s of the JavaScript body are not modelled; the model shows only that a call made while one is in progress changes nothing.

## Findings

| source | as written | input that shows it | evidently intended | confidence | as-written member | corrected member |
|---|---|---|---|---|---|---|
| python-scraper/scraper_server.py:285 | the poster branch compares the poster only with earlier posters, so a URL first seen as a video `src` is stored a second time | videos `[(src "x", no poster), (no src, poster "x")]` | each media URL is stored once | not executed | ScraperServer.PosterBranchDuplicates | ScraperServer.AddVideosDistinct |
| src/services/geminiService.js:306 | the post-processing loop runs over the verdicts and reads `comments[i].toLowerCase()`; with more verdicts than comments, `comments[i]` is undefined and the call throws | comments `["10/10 !!!!"]` with two verdicts in the reply | only verdicts that have a comment are post-processed | not executed | Gemini.SurplusVerdictThrows | Gemini.Batch |
| src/app.js:636 | `lastCount = total` names a `const` declared inside the earlier block at line 501; the ReferenceError is swallowed by the catch at 643, so the cursor never moves | any run with at least one new tweet | the cursor advances to the number of tweets read | not executed | TweetProcessing.SameTweetsAgain | TweetProcessing.CursorAdvances |
| src/app.js:550 | `news.map` is applied to the validation result, which is an object and not an array; the throw happens before `results.json` is written | any new tweet | every processed tweet is filed under its topic in the JSON document | not executed | TweetProcessing.CursorNeverAdvances | TweetProcessing.EveryResultFiled |
| src/services/aiSentimentService.js:150 | a confidence the model gives as a word becomes NaN in `Math.max`, and `Math.min` passes NaN on, so the stored confidence is not a number | confidence `"high"` | a confidence in [0, 100], 0 when the reply gives no number | not executed | AiThreat.ConfidenceWordIsNaN | AiThreat.Confidence |
| src/services/geoSentimentService.js:198 | the summary reads `severityLevels`, which is not defined in that scope, so building the summary throws | any alert log, including the empty one | a count of alerts per severity level | not executed | GeoSentiment.SummaryAsWritten | GeoSentiment.SummaryCounts |
| src/services/geoSentimentService.js:168-184 | the colours of the 0.7 and 0.2 bands are swapped against their comments, so a more negative district is painted a colder colour | counters with 1 positive and 9 negative tweets give light green | the colour darkens as the negative ratio rises | not executed | GeoSentiment.NegativePaintedColder | GeoSentiment.HeatColorMonotone |
