/** The YouTube comment service (src/services/youtubeService.js): the URL
    check with its Shorts rewrite, the navigation retry, and the paged,
    labelled comment threads.  The browser, its scrolling and the batch
    classifier are inputs. */
module Youtube {
  import opened Wrappers
  import opened JsText
  import opened Paging
  import G = Gemini
  import TG = TopicGroups

  const InvalidUrl := "Invalid YouTube video URL"
  const ShortsPath := "youtube.com/shorts/"
  const WatchPrefix := "https://www.youtube.com/watch?v="
  const WatchPath := "youtube.com/watch"

  /** `[\w-]`: an ASCII letter, digit, underscore or hyphen. */
  predicate IdChar(c: char) {
    'a' <= c <= 'z' || 'A' <= c <= 'Z' || '0' <= c <= '9' || c == '_' || c == '-'
  }

  /** `/youtube\.com\/shorts\/([\w-]{11})/` matches at index `i`. */
  predicate ShortsAt(url: string, i: nat) {
    i + 30 <= |url| && url[i..i + 19] == ShortsPath &&
    forall k :: i + 19 <= k < i + 30 ==> IdChar(url[k])
  }

  /** The leftmost match at or after `from`. */
  function FirstShorts(url: string, from: nat): (r: Option<nat>)
    ensures r.Some? ==> from <= r.value && ShortsAt(url, r.value) &&
                        forall i :: from <= i < r.value ==> !ShortsAt(url, i)
    ensures r.None? ==> forall i :: from <= i ==> !ShortsAt(url, i)
    decreases |url| - from
  {
    if |url| < from + 30 then None
    else if ShortsAt(url, from) then Some(from)
    else FirstShorts(url, from + 1)
  }

  /** The Shorts video id, when the URL is a Shorts link. */
  function ShortsId(url: string): (r: Option<string>)
    ensures r.Some? ==> |r.value| == 11 && forall k :: 0 <= k < 11 ==> IdChar(r.value[k])
  {
    match FirstShorts(url, 0)
    case Some(i) => Some(url[i + 19..i + 30])
    case None => None
  }

  /** The URL check: a Shorts link becomes a watch link for the same id, and
      what results must then contain "youtube.com/watch". */
  function ValidateVideoUrl(url: string): (r: Result<string, string>)
    ensures r.Success? ==> Contains(r.value, WatchPath)
    ensures r.Failure? ==> r.error == InvalidUrl
    ensures ShortsId(url).Some? ==> r == Success(WatchPrefix + ShortsId(url).value)
    ensures ShortsId(url).None? ==> (r.Success? <==> url != "" && Contains(url, WatchPath))
    ensures ShortsId(url).None? && r.Success? ==> r.value == url
  {
    if url == "" then Failure(InvalidUrl)
    else match ShortsId(url)
      case Some(id) =>
        WatchLink(id);
        Success(WatchPrefix + id)
      case None =>
        if Contains(url, WatchPath) then Success(url) else Failure(InvalidUrl)
  }

  /** The rewritten link passes the watch check. */
  lemma WatchLink(id: string)
    ensures Contains(WatchPrefix + id, WatchPath)
  {
    assert (WatchPrefix + id)[12..12 + |WatchPath|] == WatchPath;
    ContainsOccurrence(WatchPrefix + id, WatchPath, 12);
  }

  /** A canonical Shorts link is rewritten to the watch link for its id,
      whatever follows the id. */
  lemma ShortsRewritten(id: string, rest: string)
    requires |id| == 11 && forall k :: 0 <= k < 11 ==> IdChar(id[k])
    ensures ValidateVideoUrl("https://www." + ShortsPath + id + rest) == Success(WatchPrefix + id)
  {
    var url := "https://www." + ShortsPath + id + rest;
    assert ShortsAt(url, 12) by {
      assert url[12..31] == ShortsPath;
      assert forall k :: 31 <= k < 42 ==> url[k] == id[k - 31];
    }
    forall i | 0 <= i < 12 ensures !ShortsAt(url, i) {
      assert url[i] == "https://www."[i];
      assert i + 19 <= |url| ==> url[i..i + 19][0] != ShortsPath[0];
    }
    var i := FirstShorts(url, 0).value;
    assert i == 12;
    assert url[31..42] == id;
  }

  /** One navigation attempt: the page loads, or `goto` throws. */
  datatype NavOutcome = Loaded | NavFailed(message: string)

  /** The attempts made, the waits between them (milliseconds), and the
      error when none loaded. */
  datatype NavRun = NavRun(loaded: bool, attempts: nat, waits: seq<nat>, error: string)

  const MaxAttempts := 3
  const RetryWait := 3000

  /** Navigation with up to three attempts: stop at the first that loads,
      wait 3 s after each failed attempt but the last, and give up with the
      last attempt's message. */
  function Navigation(go: nat -> NavOutcome): (r: NavRun)
    ensures 1 <= r.attempts <= MaxAttempts
    ensures r.waits == seq(r.attempts - 1, _ => RetryWait)
    ensures forall a :: 1 <= a < r.attempts ==> go(a).NavFailed?
    ensures r.loaded <==> go(r.attempts).Loaded?
    ensures r.loaded <==> exists a :: 1 <= a <= MaxAttempts && go(a).Loaded?
    ensures !r.loaded ==> r.attempts == MaxAttempts && r.error == "Failed to navigate to YouTube page: " + go(MaxAttempts).message
  {
    if go(1).Loaded? then NavRun(true, 1, [], "")
    else if go(2).Loaded? then NavRun(true, 2, [RetryWait], "")
    else if go(3).Loaded? then NavRun(true, 3, [RetryWait, RetryWait], "")
    else NavRun(false, 3, [RetryWait, RetryWait], "Failed to navigate to YouTube page: " + go(3).message)
  }

  /** The retry loop as the source runs it, recording its waits. */
  method Navigate(go: nat -> NavOutcome) returns (r: NavRun)
    ensures r == Navigation(go)
  {
    var loaded := false;
    var attempts := 0;
    var waits: seq<nat> := [];
    var error := "";
    var attempt := 1;
    while attempt <= MaxAttempts
      invariant 1 <= attempt <= MaxAttempts + 1 && attempts == attempt - 1
      invariant waits == seq(if attempt == MaxAttempts + 1 then 2 else attempts, _ => RetryWait)
      invariant forall a :: 1 <= a < attempt ==> go(a).NavFailed?
      invariant attempt > 1 ==> error == go(attempt - 1).message
    {
      attempts := attempt;
      match go(attempt)
      case Loaded =>
        loaded := true;
        break;
      case NavFailed(message) =>
        error := message;
        if attempt < MaxAttempts {
          waits := waits + [RetryWait];
        }
      attempt := attempt + 1;
    }
    if loaded {
      return NavRun(true, attempts, waits, "");
    }
    return NavRun(false, attempts, waits, "Failed to navigate to YouTube page: " + error);
  }

  /** A reply and a top-level comment as the page yields them. */
  datatype Reply = Reply(username: string, comment: string, likes: string)
  datatype Thread = Thread(username: string, comment: string, likes: string, replies: seq<Reply>)

  /** The same with the two fields the service adds. */
  datatype LabelledReply = LabelledReply(username: string, comment: string, likes: string, sentiment: string, topic: string)
  datatype LabelledThread = LabelledThread(username: string, comment: string, likes: string,
                                           sentiment: string, topic: string, replies: seq<LabelledReply>)

  /** `fetchAllYoutubeComments`: the URL check, navigation, and the scrape
      cut to `maxComments`.  `scraped` is what the scrolling collected;
      `pageError` is the failure of the browser after navigation (the wait
      for the comments section timing out, or a page evaluation failing),
      which the catch reports like a navigation failure. */
  function FetchAll(videoUrl: string, go: nat -> NavOutcome, pageError: Option<string>,
                    scraped: seq<Thread>, maxComments: int): (r: Result<seq<Thread>, string>)
    ensures r.Success? ==> r.value == Truncate(scraped, maxComments)
    ensures r.Success? && 0 <= maxComments ==> |r.value| <= maxComments
    ensures r.Success? <==> ValidateVideoUrl(videoUrl).Success? && Navigation(go).loaded && pageError.None?
    ensures ValidateVideoUrl(videoUrl).Success? && Navigation(go).loaded && pageError.Some? ==>
      r == Failure("Failed to scrape YouTube comments: " + pageError.value)
  {
    match ValidateVideoUrl(videoUrl)
    case Failure(e) => Failure(e)
    case Success(_) =>
      var nav := Navigation(go);
      if !nav.loaded then Failure("Failed to scrape YouTube comments: " + nav.error)
      else if pageError.Some? then Failure("Failed to scrape YouTube comments: " + pageError.value)
      else Success(Truncate(scraped, maxComments))
  }

  /** The texts of one thread: the comment, then its replies in order. */
  function ThreadTexts(t: Thread): (r: seq<string>)
    ensures |r| == 1 + |t.replies| && r[0] == t.comment
    ensures forall j :: 0 <= j < |t.replies| ==> r[1 + j] == t.replies[j].comment
  {
    [t.comment] + seq(|t.replies|, j requires 0 <= j < |t.replies| => t.replies[j].comment)
  }

  /** All texts of a page in pre-order: each comment, then its replies. */
  function Flatten(threads: seq<Thread>): seq<string> {
    if threads == [] then [] else Flatten(threads[..|threads| - 1]) + ThreadTexts(threads[|threads| - 1])
  }

  /** The flattened index of thread `i`'s own comment. */
  function Offset(threads: seq<Thread>, i: nat): nat
    requires i <= |threads|
  {
    |Flatten(threads[..i])|
  }

  /** The flattening of a prefix is a prefix of the flattening. */
  lemma {:induction false} FlattenPrefix(threads: seq<Thread>, i: nat)
    requires i <= |threads|
    ensures |Flatten(threads[..i])| <= |Flatten(threads)|
    ensures Flatten(threads)[..|Flatten(threads[..i])|] == Flatten(threads[..i])
  {
    if i < |threads| {
      var front := threads[..|threads| - 1];
      assert front[..i] == threads[..i];
      FlattenPrefix(front, i);
    } else {
      assert threads[..i] == threads;
    }
  }

  /** The next thread starts right after this one and its replies. */
  lemma FlattenStep(threads: seq<Thread>, i: nat)
    requires i < |threads|
    ensures Flatten(threads[..i + 1]) == Flatten(threads[..i]) + ThreadTexts(threads[i])
    ensures Offset(threads, i + 1) == Offset(threads, i) + 1 + |threads[i].replies|
  {
    assert threads[..i + 1][..i] == threads[..i];
  }

  /** Pre-order: the text at thread `i`'s offset is its comment, and the
      `j`-th text after it is its `j`-th reply. */
  lemma FlattenAt(threads: seq<Thread>, i: nat, j: nat)
    requires i < |threads| && j <= |threads[i].replies|
    ensures Offset(threads, i) + j < |Flatten(threads)|
    ensures Flatten(threads)[Offset(threads, i) + j] == ThreadTexts(threads[i])[j]
    ensures Flatten(threads)[Offset(threads, i) + j] ==
            if j == 0 then threads[i].comment else threads[i].replies[j - 1].comment
  {
    var upto := Flatten(threads[..i + 1]);
    FlattenStep(threads, i);
    FlattenPrefix(threads, i + 1);
    var k := Offset(threads, i) + j;
    assert k < |upto| && upto[k] == ThreadTexts(threads[i])[j];
    assert Flatten(threads)[..|upto|][k] == upto[k];
  }

  function LabelReply(r: Reply, l: TG.Label): LabelledReply {
    LabelledReply(r.username, r.comment, r.likes, l.sentiment, l.topic)
  }

  /** Thread `t` whose comment sits at flattened index `k`: the comment gets
      the label at `k`, reply `j` the label at `k + 1 + j`. */
  function LabelThread(t: Thread, sentiments: seq<G.Verdict>, topicMap: seq<string>, k: nat): LabelledThread {
    var l := TG.LabelAt(sentiments, topicMap, k);
    LabelledThread(t.username, t.comment, t.likes, l.sentiment, l.topic,
      seq(|t.replies|, j requires 0 <= j < |t.replies| => LabelReply(t.replies[j], TG.LabelAt(sentiments, topicMap, k + 1 + j))))
  }

  /** Every thread labelled from its own offset. */
  function Labelled(threads: seq<Thread>, sentiments: seq<G.Verdict>, topicMap: seq<string>): (r: seq<LabelledThread>)
    ensures |r| == |threads|
  {
    seq(|threads|, i requires 0 <= i < |threads| => LabelThread(threads[i], sentiments, topicMap, Offset(threads, i)))
  }

  function UnlabelReply(r: LabelledReply): Reply {
    Reply(r.username, r.comment, r.likes)
  }

  function UnlabelThread(t: LabelledThread): Thread {
    Thread(t.username, t.comment, t.likes, seq(|t.replies|, j requires 0 <= j < |t.replies| => UnlabelReply(t.replies[j])))
  }

  function Unlabel(ts: seq<LabelledThread>): seq<Thread> {
    seq(|ts|, i requires 0 <= i < |ts| => UnlabelThread(ts[i]))
  }

  /** Labelling only adds the two fields: the comments, the replies, their
      counts and their order are kept. */
  lemma LabelledKeepsThreads(threads: seq<Thread>, sentiments: seq<G.Verdict>, topicMap: seq<string>)
    ensures Unlabel(Labelled(threads, sentiments, topicMap)) == threads
  {
    var r := Labelled(threads, sentiments, topicMap);
    forall i | 0 <= i < |threads| ensures UnlabelThread(r[i]) == threads[i] {
      UnlabelLabelThread(threads[i], sentiments, topicMap, Offset(threads, i));
    }
  }

  lemma UnlabelLabelThread(t: Thread, sentiments: seq<G.Verdict>, topicMap: seq<string>, k: nat)
    ensures UnlabelThread(LabelThread(t, sentiments, topicMap, k)) == t
  {
    var u := UnlabelThread(LabelThread(t, sentiments, topicMap, k));
    assert u.replies == t.replies;
  }

  /** Each item gets the label at the flattened index of its own text: the
      verdict the batch gave for that very comment or reply. */
  lemma LabelsAtOwnIndex(threads: seq<Thread>, sentiments: seq<G.Verdict>, topicMap: seq<string>, i: nat, j: nat)
    requires i < |threads| && j < |threads[i].replies|
    ensures Offset(threads, i) + 1 + j < |Flatten(threads)|
    ensures Flatten(threads)[Offset(threads, i)] == threads[i].comment
    ensures Flatten(threads)[Offset(threads, i) + 1 + j] == threads[i].replies[j].comment
    ensures var r := Labelled(threads, sentiments, topicMap)[i];
      TG.Label(r.sentiment, r.topic) == TG.LabelAt(sentiments, topicMap, Offset(threads, i))
    ensures var r := Labelled(threads, sentiments, topicMap)[i];
      j < |r.replies| &&
      TG.Label(r.replies[j].sentiment, r.replies[j].topic) == TG.LabelAt(sentiments, topicMap, Offset(threads, i) + 1 + j)
  {
    FlattenAt(threads, i, 0);
    FlattenAt(threads, i, 1 + j);
    LabelledAt(threads, sentiments, topicMap, i, j);
  }

  lemma LabelledAt(threads: seq<Thread>, sentiments: seq<G.Verdict>, topicMap: seq<string>, i: nat, j: nat)
    requires i < |threads| && j < |threads[i].replies|
    ensures var r := Labelled(threads, sentiments, topicMap)[i];
      TG.Label(r.sentiment, r.topic) == TG.LabelAt(sentiments, topicMap, Offset(threads, i))
    ensures var r := Labelled(threads, sentiments, topicMap)[i];
      j < |r.replies| &&
      TG.Label(r.replies[j].sentiment, r.replies[j].topic) == TG.LabelAt(sentiments, topicMap, Offset(threads, i) + 1 + j)
  {
  }

  /** The mapping back as the source writes it: one counter `k` walks the
      flattened indices while the threads and their replies are rebuilt. */
  method Annotate(threads: seq<Thread>, sentiments: seq<G.Verdict>, topicMap: seq<string>) returns (result: seq<LabelledThread>)
    ensures result == Labelled(threads, sentiments, topicMap)
  {
    result := [];
    var k := 0;
    var i := 0;
    while i < |threads|
      invariant 0 <= i <= |threads| && k == Offset(threads, i)
      invariant result == Labelled(threads, sentiments, topicMap)[..i]
    {
      var c := threads[i];
      ghost var target := LabelThread(c, sentiments, topicMap, k);
      var l := TG.LabelAt(sentiments, topicMap, k);
      var replies;
      replies, k := AnnotateReplies(c.replies, sentiments, topicMap, k + 1);
      assert replies == target.replies;
      var t := LabelledThread(c.username, c.comment, c.likes, l.sentiment, l.topic, replies);
      ghost var all := Labelled(threads, sentiments, topicMap);
      assert t == target == all[i];
      assert all[..i + 1] == all[..i] + [t];
      FlattenStep(threads, i);
      result := result + [t];
      i := i + 1;
    }
  }

  /** The inner loop of the mapping back: reply `j` gets the label at
      `k + j`, and the counter ends past the last reply. */
  method AnnotateReplies(replies: seq<Reply>, sentiments: seq<G.Verdict>, topicMap: seq<string>, k: nat)
    returns (labelled: seq<LabelledReply>, next: nat)
    ensures next == k + |replies|
    ensures |labelled| == |replies|
    ensures forall j :: 0 <= j < |replies| ==>
      labelled[j] == LabelReply(replies[j], TG.LabelAt(sentiments, topicMap, k + j))
  {
    labelled := [];
    next := k;
    var j := 0;
    while j < |replies|
      invariant 0 <= j <= |replies| && next == k + j && |labelled| == j
      invariant forall m :: 0 <= m < j ==> labelled[m] == LabelReply(replies[m], TG.LabelAt(sentiments, topicMap, k + m))
    {
      labelled := labelled + [LabelReply(replies[j], TG.LabelAt(sentiments, topicMap, next))];
      next := next + 1;
      j := j + 1;
    }
  }

  /** `fetchAllYoutubeCommentsWithSentiment`: scrape up to the end of the
      page, cut the page, and on a non-empty page classify the flattened
      texts, group their topics and label the threads.  `analyze` stands
      for the batch classifier, which may throw (its message is the
      failure); `similar` stands for the topic similarity test. */
  function CommentsWithSentiment(videoUrl: string, go: nat -> NavOutcome, pageError: Option<string>, scraped: seq<Thread>,
                                 maxComments: int, page: int,
                                 analyze: seq<string> -> Result<seq<G.Verdict>, string>,
                                 similar: (string, string) -> bool): (r: Result<seq<LabelledThread>, string>)
    ensures FetchAll(videoUrl, go, pageError, scraped, page * maxComments).Failure? ==>
      r == Failure(FetchAll(videoUrl, go, pageError, scraped, page * maxComments).error)
    ensures FetchAll(videoUrl, go, pageError, scraped, page * maxComments).Success? && Window(scraped, maxComments, page) == [] ==>
      r == Success([])
    ensures r.Success? ==> Unlabel(r.value) == Window(scraped, maxComments, page)
    ensures FetchAll(videoUrl, go, pageError, scraped, page * maxComments).Success? && Window(scraped, maxComments, page) != [] ==>
      var texts := Flatten(Window(scraped, maxComments, page));
      (r.Failure? <==> analyze(texts).Failure?) &&
      (r.Failure? ==> r.error == analyze(texts).error) &&
      (r.Success? ==> r.value == Labelled(Window(scraped, maxComments, page), analyze(texts).value,
                                          TG.Labels(analyze(texts).value, similar)))
  {
    match FetchAll(videoUrl, go, pageError, scraped, page * maxComments)
    case Failure(e) => Failure(e)
    case Success(all) =>
      var start := (page - 1) * maxComments;
      var pageComments := JsSlice(all, start, start + maxComments);
      if pageComments == [] then Success([])
      else
        match analyze(Flatten(pageComments))
        case Failure(e) => Failure(e)
        case Success(sentiments) =>
          var labelled := Labelled(pageComments, sentiments, TG.Labels(sentiments, similar));
          LabelledKeepsThreads(pageComments, sentiments, TG.Labels(sentiments, similar));
          Success(labelled)
  }
}
