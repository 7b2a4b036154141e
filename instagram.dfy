/** The Instagram Reel comment service (src/services/instagramService.js):
    the URL test, the shortcode, the GraphQL cursor loop and the labelled
    comments.  Login, the browser and the batch classifier are left to the
    caller: the loop reads the API's replies, in order, from a list. */
module Instagram {
  import opened Wrappers
  import opened JsText
  import opened Paging
  import G = Gemini
  import TG = TopicGroups

  const ReelPath := "instagram.com/reel/"
  const InvalidUrl := "Invalid Instagram Reel URL"
  const ScrapeFailed := "Failed to scrape Instagram Reel comments: "
  const PageLimit := 50

  /** `/instagram\.com\/reel\//.test(reelUrl)` on a non-empty URL. */
  function ValidateReelUrl(reelUrl: string): (r: Result<string, string>)
    ensures r.Success? <==> Contains(reelUrl, ReelPath)
    ensures r.Success? ==> r.value == reelUrl
    ensures r.Failure? ==> r.error == InvalidUrl
  {
    if reelUrl == "" || !Contains(reelUrl, ReelPath) then Failure(InvalidUrl) else Success(reelUrl)
  }

  /** `[^/?]`. */
  predicate CodeChar(c: char) {
    c != '/' && c != '?'
  }

  /** `/reel\/([^/?]+)/` matches at index `i`. */
  predicate ReelAt(url: string, i: nat) {
    i + 6 <= |url| && url[i..i + 5] == "reel/" && CodeChar(url[i + 5])
  }

  /** The leftmost match at or after `from`. */
  function FirstReel(url: string, from: nat): (r: Option<nat>)
    ensures r.Some? ==> from <= r.value && ReelAt(url, r.value) &&
                        forall i :: from <= i < r.value ==> !ReelAt(url, i)
    ensures r.None? ==> forall i :: from <= i ==> !ReelAt(url, i)
    decreases |url| - from
  {
    if |url| < from + 6 then None
    else if ReelAt(url, from) then Some(from)
    else FirstReel(url, from + 1)
  }

  /** Where the greedy run of code characters starting at `k` ends. */
  function RunEnd(url: string, k: nat): (r: nat)
    requires k <= |url|
    ensures k <= r <= |url|
    ensures forall j :: k <= j < r ==> CodeChar(url[j])
    ensures r < |url| ==> !CodeChar(url[r])
    decreases |url| - k
  {
    if k == |url| || !CodeChar(url[k]) then k else RunEnd(url, k + 1)
  }

  /** The shortcode: the longest run of code characters after the first
      "reel/" that is followed by one. */
  function Shortcode(url: string): (r: Option<string>)
    ensures r.Some? ==> r.value != [] && forall j :: 0 <= j < |r.value| ==> CodeChar(r.value[j])
    ensures r.None? <==> forall i :: !ReelAt(url, i)
  {
    match FirstReel(url, 0)
    case Some(i) => Some(url[i + 5..RunEnd(url, i + 5)])
    case None => None
  }

  /** A plain Reel link yields the code between "reel/" and the next "/",
      "?" or the end. */
  lemma ShortcodeOfReelLink(code: string, rest: string)
    requires code != [] && forall j :: 0 <= j < |code| ==> CodeChar(code[j])
    requires rest == [] || !CodeChar(rest[0])
    ensures Shortcode("https://www.instagram.com/reel/" + code + rest) == Some(code)
  {
    var url := "https://www.instagram.com/reel/" + code + rest;
    var head := "https://www.instagram.com/";
    assert url[..26] == head;
    assert ReelAt(url, 26) by {
      assert url[26..31] == "reel/";
      assert url[31] == code[0];
    }
    forall i | 0 <= i < 26 ensures !ReelAt(url, i) {
      assert url[i] == head[i];
      assert i == 18 ==> url[i + 1] == head[i + 1];
      assert i + 5 <= |url| ==> url[i..i + 5][0] == url[i] && url[i..i + 5][1] == url[i + 1];
    }
    assert FirstReel(url, 0) == Some(26);
    var e := RunEnd(url, 31);
    forall j | 31 <= j < 31 + |code| ensures CodeChar(url[j]) {
      assert url[j] == code[j - 31];
    }
    assert 31 + |code| < |url| ==> url[31 + |code|] == rest[0];
    assert e == 31 + |code|;
    assert url[31..31 + |code|] == code;
  }

  /** A comment as the API returns it. */
  datatype IgComment = IgComment(username: string, comment: string)

  /** One GraphQL reply: the comment edge with its page info, a reply without
      it, or a failed fetch with its HTTP status. */
  datatype GraphReply = Edge(comments: seq<IgComment>, hasNextPage: bool, endCursor: string)
                      | NoEdge
                      | NetworkError(status: string)

  /** The variables of one request: `after` only when the cursor is truthy. */
  datatype Request = Request(shortcode: string, first: int, after: Option<string>)

  /** How the loop ended: with the comments, with an error, or still paging
      when the recorded replies ran out. */
  datatype Pulled = Fetched(comments: seq<IgComment>) | Failed(message: string) | Unfinished

  datatype PullRun = PullRun(outcome: Pulled, requests: seq<Request>)

  function After(cursor: string): Option<string> {
    if cursor != "" then Some(cursor) else None
  }

  /** The loop from a state: `collected` so far, the last page info, and the
      requests already `sent` (which also counts the replies used). */
  function Pull(shortcode: string, replies: seq<GraphReply>, maxComments: int,
                collected: seq<IgComment>, hasNext: bool, cursor: string, sent: seq<Request>): PullRun
    decreases |replies| - |sent|
  {
    if !(|collected| < maxComments && hasNext) then PullRun(Fetched(Truncate(collected, maxComments)), sent)
    else if |sent| >= |replies| then PullRun(Unfinished, sent)
    else
      var req := Request(shortcode, Min(maxComments - |collected|, PageLimit), After(cursor));
      match replies[|sent|]
      case NetworkError(status) => PullRun(Failed(ScrapeFailed + "Network error: " + status), sent + [req])
      case NoEdge => PullRun(Failed(ScrapeFailed + "Unexpected GraphQL response structure"), sent + [req])
      case Edge(comments, next, end) => Pull(shortcode, replies, maxComments, collected + comments, next, end, sent + [req])
  }

  /** The comments of the first `k` replies, in API order. */
  function Gathered(replies: seq<GraphReply>, k: nat): seq<IgComment>
    requires k <= |replies|
  {
    if k == 0 then []
    else Gathered(replies, k - 1) + (if replies[k - 1].Edge? then replies[k - 1].comments else [])
  }

  /** The page info in force before request `k`. */
  function CursorBefore(replies: seq<GraphReply>, k: nat): string
    requires k <= |replies|
  {
    if k == 0 || !replies[k - 1].Edge? then "" else replies[k - 1].endCursor
  }

  predicate NextBefore(replies: seq<GraphReply>, k: nat)
    requires k <= |replies|
  {
    k == 0 || (replies[k - 1].Edge? && replies[k - 1].hasNextPage)
  }

  /** Request `k` as the source builds it: at most 50, never more than is
      still missing, and the previous page's cursor when it has one. */
  function RequestFor(shortcode: string, replies: seq<GraphReply>, maxComments: int, k: nat): Request
    requires k <= |replies|
  {
    Request(shortcode, Min(maxComments - |Gathered(replies, k)|, PageLimit), After(CursorBefore(replies, k)))
  }

  /** The loop state after `|sent|` replies, each an edge, each sent while
      comments were still missing and a next page was announced. */
  predicate Reached(shortcode: string, replies: seq<GraphReply>, maxComments: int,
                    collected: seq<IgComment>, hasNext: bool, cursor: string, sent: seq<Request>) {
    |sent| <= |replies| &&
    (forall k :: 0 <= k < |sent| ==> replies[k].Edge?) &&
    collected == Gathered(replies, |sent|) && cursor == CursorBefore(replies, |sent|) &&
    hasNext == NextBefore(replies, |sent|) &&
    (forall k :: 0 <= k < |sent| ==> sent[k] == RequestFor(shortcode, replies, maxComments, k)) &&
    (forall k :: 0 <= k < |sent| ==> |Gathered(replies, k)| < maxComments && NextBefore(replies, k))
  }

  /** What the loop promises, from any reached state. */
  predicate Promised(shortcode: string, replies: seq<GraphReply>, maxComments: int, r: PullRun) {
    var n := |r.requests|;
    n <= |replies| &&
    (forall k :: 0 <= k < n ==> r.requests[k] == RequestFor(shortcode, replies, maxComments, k)) &&
    (forall k :: 0 <= k < n ==> 1 <= r.requests[k].first <= PageLimit) &&
    (forall k :: 0 <= k < n - 1 ==> replies[k].Edge?) &&
    (r.outcome.Fetched? ==> forall k :: 0 <= k < n ==> replies[k].Edge?) &&
    (r.outcome.Fetched? ==> r.outcome.comments == Truncate(Gathered(replies, n), maxComments)) &&
    (r.outcome.Fetched? ==> maxComments <= |Gathered(replies, n)| || !NextBefore(replies, n)) &&
    (r.outcome.Failed? ==> 0 < n && !replies[n - 1].Edge?) &&
    (r.outcome.Unfinished? ==> n == |replies|)
  }

  lemma GatheredStep(replies: seq<GraphReply>, k: nat)
    requires k < |replies| && replies[k].Edge?
    ensures Gathered(replies, k + 1) == Gathered(replies, k) + replies[k].comments
  {
  }

  /** An edge reply moves the loop to the next reached state. */
  lemma ReachedNext(shortcode: string, replies: seq<GraphReply>, maxComments: int,
                    collected: seq<IgComment>, hasNext: bool, cursor: string, sent: seq<Request>)
    requires Reached(shortcode, replies, maxComments, collected, hasNext, cursor, sent)
    requires |collected| < maxComments && hasNext && |sent| < |replies| && replies[|sent|].Edge?
    ensures var e, req := replies[|sent|], Request(shortcode, Min(maxComments - |collected|, PageLimit), After(cursor));
      Reached(shortcode, replies, maxComments, collected + e.comments, e.hasNextPage, e.endCursor, sent + [req])
  {
    var n := |sent|;
    GatheredStep(replies, n);
    var req := Request(shortcode, Min(maxComments - |collected|, PageLimit), After(cursor));
    assert req == RequestFor(shortcode, replies, maxComments, n);
    var sent' := sent + [req];
    assert forall k :: 0 <= k < n ==> sent'[k] == sent[k];
  }

  /** Requests sent from a reached state ask for at least one comment. */
  lemma ReachedFirsts(shortcode: string, replies: seq<GraphReply>, maxComments: int,
                      collected: seq<IgComment>, hasNext: bool, cursor: string, sent: seq<Request>)
    requires Reached(shortcode, replies, maxComments, collected, hasNext, cursor, sent)
    ensures forall k :: 0 <= k < |sent| ==> 1 <= sent[k].first <= PageLimit
  {
    forall k | 0 <= k < |sent| ensures 1 <= sent[k].first <= PageLimit {
      assert sent[k] == RequestFor(shortcode, replies, maxComments, k);
    }
  }

  /** The loop keeps its promise from every reached state. */
  lemma {:induction false} PullKeepsPromise(shortcode: string, replies: seq<GraphReply>, maxComments: int,
                                           collected: seq<IgComment>, hasNext: bool, cursor: string, sent: seq<Request>)
    requires Reached(shortcode, replies, maxComments, collected, hasNext, cursor, sent)
    ensures Promised(shortcode, replies, maxComments, Pull(shortcode, replies, maxComments, collected, hasNext, cursor, sent))
    decreases |replies| - |sent|
  {
    var n := |sent|;
    ReachedFirsts(shortcode, replies, maxComments, collected, hasNext, cursor, sent);
    if |collected| < maxComments && hasNext && n < |replies| {
      var req := Request(shortcode, Min(maxComments - |collected|, PageLimit), After(cursor));
      assert req == RequestFor(shortcode, replies, maxComments, n);
      match replies[n]
      case NetworkError(_) =>
        assert forall k :: 0 <= k < n ==> (sent + [req])[k] == sent[k];
      case NoEdge =>
        assert forall k :: 0 <= k < n ==> (sent + [req])[k] == sent[k];
      case Edge(comments, next, end) =>
        ReachedNext(shortcode, replies, maxComments, collected, hasNext, cursor, sent);
        PullKeepsPromise(shortcode, replies, maxComments, collected + comments, next, end, sent + [req]);
    }
  }

  /** `fetchInstagramReelComments` from the shortcode on. */
  function FetchComments(shortcode: string, replies: seq<GraphReply>, maxComments: int): (r: PullRun)
    ensures Promised(shortcode, replies, maxComments, r)
    ensures r.outcome.Fetched? && 0 <= maxComments ==> |r.outcome.comments| <= maxComments
  {
    PullKeepsPromise(shortcode, replies, maxComments, [], true, "", []);
    Pull(shortcode, replies, maxComments, [], true, "", [])
  }

  /** The first request asks for min(maxComments, 50) with no cursor. */
  lemma FirstRequest(shortcode: string, replies: seq<GraphReply>, maxComments: int)
    requires 0 < maxComments && replies != []
    ensures var r := FetchComments(shortcode, replies, maxComments);
      r.requests != [] && r.requests[0] == Request(shortcode, Min(maxComments, PageLimit), None)
  {
  }

  /** The loop as the source runs it, over mutable `comments`, `hasNextPage`
      and `endCursor`, recording the variables of every request. */
  method PullComments(shortcode: string, replies: seq<GraphReply>, maxComments: int) returns (run: PullRun)
    ensures run == FetchComments(shortcode, replies, maxComments)
  {
    var comments: seq<IgComment> := [];
    var hasNextPage := true;
    var endCursor := "";
    var sent: seq<Request> := [];
    while |comments| < maxComments && hasNextPage
      invariant |sent| <= |replies|
      invariant Pull(shortcode, replies, maxComments, comments, hasNextPage, endCursor, sent) ==
                Pull(shortcode, replies, maxComments, [], true, "", [])
      decreases |replies| - |sent|
    {
      if |sent| >= |replies| {
        return PullRun(Unfinished, sent);
      }
      var req := Request(shortcode, Min(maxComments - |comments|, PageLimit), After(endCursor));
      sent := sent + [req];
      match replies[|sent| - 1]
      case NetworkError(status) =>
        return PullRun(Failed(ScrapeFailed + "Network error: " + status), sent);
      case NoEdge =>
        return PullRun(Failed(ScrapeFailed + "Unexpected GraphQL response structure"), sent);
      case Edge(page, next, end) =>
        comments := comments + page;
        hasNextPage := next;
        endCursor := end;
    }
    return PullRun(Fetched(Truncate(comments, maxComments)), sent);
  }

  /** The same with the two fields the service adds. */
  datatype LabelledComment = LabelledComment(username: string, comment: string, sentiment: string, topic: string)

  function Texts(comments: seq<IgComment>): (r: seq<string>)
    ensures |r| == |comments| && forall i :: 0 <= i < |comments| ==> r[i] == comments[i].comment
  {
    seq(|comments|, i requires 0 <= i < |comments| => comments[i].comment)
  }

  function Unlabel(c: LabelledComment): IgComment {
    IgComment(c.username, c.comment)
  }

  /** Comment `i` gets the label at index `i`. */
  function LabelComments(comments: seq<IgComment>, sentiments: seq<G.Verdict>, topicMap: seq<string>): (r: seq<LabelledComment>)
    ensures |r| == |comments|
  {
    seq(|comments|, i requires 0 <= i < |comments| =>
      LabelledComment(comments[i].username, comments[i].comment,
                      TG.LabelAt(sentiments, topicMap, i).sentiment, TG.LabelAt(sentiments, topicMap, i).topic))
  }

  /** Comment `i` keeps its fields and gets `sentiments[i]` or "Neutral",
      and a topic that is "Unknown" or a canonical one. */
  lemma LabelledComments(comments: seq<IgComment>, sentiments: seq<G.Verdict>, similar: (string, string) -> bool, i: nat)
    requires i < |comments|
    ensures var g := TG.Canonicalize(TG.NormalizeTopics(sentiments), similar);
      var r := LabelComments(comments, sentiments, g.topicMap)[i];
      Unlabel(r) == comments[i] &&
      (i < |sentiments| && sentiments[i].sentiment != "" ==> r.sentiment == sentiments[i].sentiment) &&
      (i >= |sentiments| || sentiments[i].sentiment == "" ==> r.sentiment == "Neutral") &&
      (r.topic == "Unknown" || r.topic in g.canon)
  {
    TG.LabelTopics(sentiments, similar, i);
  }

  /** What the service returns: labelled comments, an error message, or no
      answer yet when the recorded replies ran out mid-loop. */
  datatype ReelOutcome = Done(comments: seq<LabelledComment>) | Error(message: string) | StillPaging

  /** `fetchAllInstagramCommentsWithSentiment`: URL test, shortcode, the
      cursor loop, then classify every comment, group the topics and label
      each comment by its index. */
  function CommentsWithSentiment(reelUrl: string, replies: seq<GraphReply>, maxComments: int,
                                 analyze: seq<string> -> Result<seq<G.Verdict>, string>,
                                 similar: (string, string) -> bool): (r: ReelOutcome)
    ensures !Contains(reelUrl, ReelPath) ==> r == Error(InvalidUrl)
    ensures Contains(reelUrl, ReelPath) && Shortcode(reelUrl).None? ==>
      r == Error(ScrapeFailed + "Could not extract Reel shortcode from URL")
    ensures r.Done? ==> Shortcode(reelUrl).Some?
    ensures r.Done? ==> var pulled := FetchComments(Shortcode(reelUrl).value, replies, maxComments).outcome;
      pulled.Fetched? && |r.comments| == |pulled.comments| &&
      (forall i :: 0 <= i < |r.comments| ==> Unlabel(r.comments[i]) == pulled.comments[i])
    ensures r.Done? && 0 <= maxComments ==> |r.comments| <= maxComments
    ensures Contains(reelUrl, ReelPath) && Shortcode(reelUrl).Some? &&
            FetchComments(Shortcode(reelUrl).value, replies, maxComments).outcome.Fetched? ==>
      var pulled := FetchComments(Shortcode(reelUrl).value, replies, maxComments).outcome.comments;
      (r.Error? <==> analyze(Texts(pulled)).Failure?) &&
      (r.Error? ==> r.message == analyze(Texts(pulled)).error) &&
      (r.Done? ==> r.comments == LabelComments(pulled, analyze(Texts(pulled)).value, TG.Labels(analyze(Texts(pulled)).value, similar)))
  {
    match ValidateReelUrl(reelUrl)
    case Failure(e) => Error(e)
    case Success(_) =>
      match Shortcode(reelUrl)
      case None => Error(ScrapeFailed + "Could not extract Reel shortcode from URL")
      case Some(code) =>
        match FetchComments(code, replies, maxComments).outcome
        case Failed(message) => Error(message)
        case Unfinished => StillPaging
        case Fetched(comments) =>
          match analyze(Texts(comments))
          case Failure(e) => Error(e)
          case Success(sentiments) => Done(LabelComments(comments, sentiments, TG.Labels(sentiments, similar)))
  }
}
