/** The Google Maps review service (src/services/googleReviewService.js):
    the place-URL check, the page window, and the labelled reviews.  The
    browser and the batch classifier are inputs. */
module GoogleReviews {
  import opened Wrappers
  import opened JsText
  import opened Paging
  import G = Gemini
  import TG = TopicGroups

  const PlacePath := "google.com/maps/place/"
  const InvalidUrl := "Invalid Google Maps place URL"

  /** A review as the page yields it. */
  datatype Review = Review(username: string, review: string, rating: real, date: string)

  /** The same with the two fields the service adds. */
  datatype LabelledReview = LabelledReview(username: string, review: string, rating: real, date: string,
                                           sentiment: string, topic: string)

  /** The URL must be non-empty and contain "google.com/maps/place/". */
  function ValidatePlaceUrl(placeUrl: string): (r: Result<string, string>)
    ensures r.Success? <==> Contains(placeUrl, PlacePath)
    ensures r.Success? ==> r.value == placeUrl
    ensures r.Failure? ==> r.error == InvalidUrl
  {
    if placeUrl == "" || !Contains(placeUrl, PlacePath) then Failure(InvalidUrl) else Success(placeUrl)
  }

  /** `fetchAllGoogleReviews`: the URL check, then the reviews the page
      showed cut to `maxReviews`; `browserError` is an exception the
      browser raised, reported with the service's prefix. */
  function FetchAll(placeUrl: string, browserError: Option<string>, scraped: seq<Review>, maxReviews: int): (r: Result<seq<Review>, string>)
    ensures r.Success? <==> Contains(placeUrl, PlacePath) && browserError.None?
    ensures r.Success? ==> r.value == Truncate(scraped, maxReviews)
    ensures r.Success? && 0 <= maxReviews ==> |r.value| <= maxReviews
    ensures browserError.Some? && Contains(placeUrl, PlacePath) ==> r == Failure("Failed to scrape Google Reviews: " + browserError.value)
  {
    match ValidatePlaceUrl(placeUrl)
    case Failure(e) => Failure(e)
    case Success(_) =>
      match browserError
      case Some(message) => Failure("Failed to scrape Google Reviews: " + message)
      case None => Success(Truncate(scraped, maxReviews))
  }

  function Texts(reviews: seq<Review>): (r: seq<string>)
    ensures |r| == |reviews| && forall i :: 0 <= i < |reviews| ==> r[i] == reviews[i].review
  {
    seq(|reviews|, i requires 0 <= i < |reviews| => reviews[i].review)
  }

  function LabelReview(r: Review, l: TG.Label): LabelledReview {
    LabelledReview(r.username, r.review, r.rating, r.date, l.sentiment, l.topic)
  }

  function Unlabel(r: LabelledReview): Review {
    Review(r.username, r.review, r.rating, r.date)
  }

  /** Review `i` gets the label at index `i`. */
  function LabelReviews(reviews: seq<Review>, sentiments: seq<G.Verdict>, topicMap: seq<string>): (r: seq<LabelledReview>)
    ensures |r| == |reviews|
    ensures forall i :: 0 <= i < |reviews| ==> Unlabel(r[i]) == reviews[i]
  {
    seq(|reviews|, i requires 0 <= i < |reviews| => LabelReview(reviews[i], TG.LabelAt(sentiments, topicMap, i)))
  }

  /** The output has one review per page review, in order, unchanged but
      for the two fields; review `i` gets `sentiments[i]` or "Neutral", and
      the topic its grouping gave it (or "Unknown"), which is itself
      "Unknown" or a canonical topic. */
  lemma LabelledReviews(reviews: seq<Review>, sentiments: seq<G.Verdict>, similar: (string, string) -> bool, i: nat)
    requires i < |reviews|
    ensures var g := TG.Canonicalize(TG.NormalizeTopics(sentiments), similar);
      var r := LabelReviews(reviews, sentiments, g.topicMap)[i];
      Unlabel(r) == reviews[i] &&
      (i < |sentiments| && sentiments[i].sentiment != "" ==> r.sentiment == sentiments[i].sentiment) &&
      (i >= |sentiments| || sentiments[i].sentiment == "" ==> r.sentiment == "Neutral") &&
      (r.topic == "Unknown" || r.topic in g.canon) &&
      (i < |sentiments| && g.topicMap[i] != "" ==> r.topic == g.topicMap[i])
  {
    TG.LabelTopics(sentiments, similar, i);
  }

  /** `fetchAllGoogleReviewsWithSentiment`: scrape up to the end of the
      page, cut the page, and on a non-empty page classify the review
      texts, group their topics and label the reviews.  `analyze` stands
      for the batch classifier, which may throw (its message is the
      failure). */
  function ReviewsWithSentiment(placeUrl: string, browserError: Option<string>, scraped: seq<Review>,
                                maxReviews: int, page: int,
                                analyze: seq<string> -> Result<seq<G.Verdict>, string>,
                                similar: (string, string) -> bool): (r: Result<seq<LabelledReview>, string>)
    ensures !(Contains(placeUrl, PlacePath) && browserError.None?) ==> r.Failure?
    ensures Contains(placeUrl, PlacePath) && browserError.None? && Window(scraped, maxReviews, page) == [] ==>
      r == Success([])
    ensures r.Success? ==> |r.value| == |Window(scraped, maxReviews, page)|
    ensures r.Success? ==> forall i :: 0 <= i < |r.value| ==> Unlabel(r.value[i]) == Window(scraped, maxReviews, page)[i]
    ensures Contains(placeUrl, PlacePath) && browserError.None? && Window(scraped, maxReviews, page) != [] ==>
      var sentiments := analyze(Texts(Window(scraped, maxReviews, page)));
      (r.Failure? <==> sentiments.Failure?) &&
      (r.Failure? ==> r.error == sentiments.error) &&
      (r.Success? ==> r.value == LabelReviews(Window(scraped, maxReviews, page), sentiments.value,
                                              TG.Labels(sentiments.value, similar)))
  {
    match FetchAll(placeUrl, browserError, scraped, page * maxReviews)
    case Failure(e) => Failure(e)
    case Success(all) =>
      var start := (page - 1) * maxReviews;
      var pageReviews := JsSlice(all, start, start + maxReviews);
      assert pageReviews == Window(scraped, maxReviews, page);
      if pageReviews == [] then Success([])
      else
        match analyze(Texts(pageReviews))
        case Failure(e) => Failure(e)
        case Success(sentiments) => Success(LabelReviews(pageReviews, sentiments, TG.Labels(sentiments, similar)))
  }
}
