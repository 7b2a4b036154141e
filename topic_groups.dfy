/** The topic grouping and the per-index labelling shared by the comment
    pipelines (src/services/youtubeService.js, googleReviewService.js and
    instagramService.js each carry the same loop). */
module TopicGroups {
  import opened Wrappers
  import opened JsText
  import G = Gemini

  /** A verdict's topic as the grouping sees it: a missing topic and
      "Unknown" are "Unknown", any other is trimmed. */
  function NormalizeTopic(v: G.Verdict): (r: string)
    ensures v.topic == "" || v.topic == "Unknown" ==> r == "Unknown"
    ensures v.topic != "" && v.topic != "Unknown" ==> r == Trim(v.topic)
  {
    if v.topic != "" && v.topic != "Unknown" then Trim(v.topic) else "Unknown"
  }

  function NormalizeTopics(vs: seq<G.Verdict>): (r: seq<string>)
    ensures |r| == |vs| && forall i :: 0 <= i < |vs| ==> r[i] == NormalizeTopic(vs[i])
  {
    seq(|vs|, i requires 0 <= i < |vs| => NormalizeTopic(vs[i]))
  }

  /** The first canonical topic `topic` is similar to.  `similar(a, b)`
      stands for `compareTwoStrings(a.toLowerCase(), b.toLowerCase()) > 0.7`. */
  function FirstSimilar(canon: seq<string>, topic: string, similar: (string, string) -> bool): (r: Option<nat>)
    ensures r.Some? ==> r.value < |canon| && similar(topic, canon[r.value]) &&
                        forall j :: 0 <= j < r.value ==> !similar(topic, canon[j])
    ensures r.None? ==> forall j :: 0 <= j < |canon| ==> !similar(topic, canon[j])
  {
    if canon == [] then None
    else if similar(topic, canon[0]) then Some(0)
    else match FirstSimilar(canon[1..], topic, similar)
      case Some(j) => Some(j + 1)
      case None => None
  }

  /** `canonicalTopics` and `topicMap` (by index) after the grouping loop. */
  datatype Grouping = Grouping(canon: seq<string>, topicMap: seq<string>)

  /** Where a topic maps, given the canonical topics found so far. */
  function Target(canon: seq<string>, topic: string, similar: (string, string) -> bool): string {
    if topic == "Unknown" then "Unknown"
    else match FirstSimilar(canon, topic, similar)
      case Some(j) => canon[j]
      case None => topic
  }

  /** One step of the loop: "Unknown" stays, a topic similar to a canonical
      one maps to the first such, any other becomes canonical itself. */
  function Step(g: Grouping, topic: string, similar: (string, string) -> bool): (r: Grouping)
    ensures |r.topicMap| == |g.topicMap| + 1 && r.topicMap[..|g.topicMap|] == g.topicMap
    ensures r.topicMap[|g.topicMap|] == Target(g.canon, topic, similar)
    ensures |r.canon| >= |g.canon| && r.canon[..|g.canon|] == g.canon
  {
    if topic == "Unknown" then Grouping(g.canon, g.topicMap + ["Unknown"])
    else match FirstSimilar(g.canon, topic, similar)
      case Some(j) => Grouping(g.canon, g.topicMap + [g.canon[j]])
      case None => Grouping(g.canon + [topic], g.topicMap + [topic])
  }

  /** No canonical topic is similar to one found before it. */
  predicate Spread(canon: seq<string>, similar: (string, string) -> bool) {
    forall i, j :: 0 <= i < j < |canon| ==> !similar(canon[j], canon[i])
  }

  /** The grouping of a whole list of topics, in order. */
  function Canonicalize(topics: seq<string>, similar: (string, string) -> bool): (r: Grouping)
    ensures |r.topicMap| == |topics|
    ensures forall i :: 0 <= i < |topics| && topics[i] == "Unknown" ==> r.topicMap[i] == "Unknown"
    ensures forall i :: 0 <= i < |topics| ==> r.topicMap[i] == "Unknown" || r.topicMap[i] in r.canon
    ensures forall c :: c in r.canon ==> c in topics && c != "Unknown"
    ensures Spread(r.canon, similar)
  {
    if topics == [] then Grouping([], [])
    else
      var g := Canonicalize(topics[..|topics| - 1], similar);
      var r := Step(g, topics[|topics| - 1], similar);
      assert forall i :: 0 <= i < |topics| - 1 ==> topics[..|topics| - 1][i] == topics[i];
      assert forall c :: c in g.canon ==> c in topics[..|topics| - 1];
      r
  }

  /** The grouping of a prefix is the start of the grouping of the whole:
      later topics never remap earlier ones nor reorder the canonical list. */
  lemma {:induction false} PrefixStable(topics: seq<string>, n: nat, similar: (string, string) -> bool)
    requires n <= |topics|
    ensures var whole, part := Canonicalize(topics, similar), Canonicalize(topics[..n], similar);
      whole.topicMap[..n] == part.topicMap && |part.canon| <= |whole.canon| && whole.canon[..|part.canon|] == part.canon
  {
    if n < |topics| {
      var front := topics[..|topics| - 1];
      assert front[..n] == topics[..n];
      PrefixStable(front, n, similar);
    } else {
      assert topics[..n] == topics;
    }
  }

  /** One more topic is one more step. */
  lemma CanonicalizeSnoc(topics: seq<string>, i: nat, similar: (string, string) -> bool)
    requires i < |topics|
    ensures Canonicalize(topics[..i + 1], similar) == Step(Canonicalize(topics[..i], similar), topics[i], similar)
  {
    var upto := topics[..i + 1];
    assert upto[..i] == topics[..i];
  }

  /** Topic `i` maps by the rule, against the canonical topics found before it. */
  lemma MapRule(topics: seq<string>, i: nat, similar: (string, string) -> bool)
    requires i < |topics|
    ensures Canonicalize(topics, similar).topicMap[i] == Target(Canonicalize(topics[..i], similar).canon, topics[i], similar)
  {
    PrefixStable(topics, i + 1, similar);
    CanonicalizeSnoc(topics, i, similar);
  }

  /** With a reflexive similarity, a topic that is itself canonical is its
      own target against any prefix of the canonical list. */
  lemma TargetFixed(canon: seq<string>, p: nat, c: nat, topic: string, similar: (string, string) -> bool)
    requires forall x :: similar(x, x)
    requires Spread(canon, similar) && p <= |canon| && c < |canon| && canon[c] == topic && topic != "Unknown"
    ensures Target(canon[..p], topic, similar) == topic
  {
    match FirstSimilar(canon[..p], topic, similar)
    case Some(j) =>
      assert canon[..p][j] == canon[j];
    case None =>
  }

  /** With a reflexive similarity, each canonical topic maps to itself
      wherever it occurs. */
  lemma CanonicalFixed(topics: seq<string>, i: nat, similar: (string, string) -> bool)
    requires forall x :: similar(x, x)
    requires i < |topics| && topics[i] in Canonicalize(topics, similar).canon
    ensures Canonicalize(topics, similar).topicMap[i] == topics[i]
  {
    var whole := Canonicalize(topics, similar);
    var before := Canonicalize(topics[..i], similar).canon;
    PrefixStable(topics, i, similar);
    MapRule(topics, i, similar);
    var c :| 0 <= c < |whole.canon| && whole.canon[c] == topics[i];
    TargetFixed(whole.canon, |before|, c, topics[i], similar);
  }

  /** With a reflexive similarity, the canonical topics are pairwise distinct. */
  lemma CanonicalDistinct(topics: seq<string>, similar: (string, string) -> bool)
    requires forall x :: similar(x, x)
    ensures forall a, b :: 0 <= a < b < |Canonicalize(topics, similar).canon| ==>
      Canonicalize(topics, similar).canon[a] != Canonicalize(topics, similar).canon[b]
  {
    var canon := Canonicalize(topics, similar).canon;
    forall a, b | 0 <= a < b < |canon| ensures canon[a] != canon[b] {
      assert !similar(canon[b], canon[a]);
    }
  }

  /** The grouping loop as the source runs it, over a mutable canonical
      list and index map. */
  method GroupTopics(topics: seq<string>, similar: (string, string) -> bool) returns (canon: seq<string>, topicMap: seq<string>)
    ensures Grouping(canon, topicMap) == Canonicalize(topics, similar)
  {
    canon := [];
    topicMap := [];
    var idx := 0;
    while idx < |topics|
      invariant 0 <= idx <= |topics|
      invariant Grouping(canon, topicMap) == Canonicalize(topics[..idx], similar)
    {
      canon, topicMap := AddTopic(canon, topicMap, topics[idx], similar);
      CanonicalizeSnoc(topics, idx, similar);
      idx := idx + 1;
    }
    assert topics[..idx] == topics;
  }

  /** The `forEach` callback: map one topic and extend the canonical list
      when no canonical topic is similar to it. */
  method AddTopic(canon: seq<string>, topicMap: seq<string>, topic: string, similar: (string, string) -> bool)
    returns (canon': seq<string>, topicMap': seq<string>)
    ensures Grouping(canon', topicMap') == Step(Grouping(canon, topicMap), topic, similar)
  {
    canon', topicMap' := canon, topicMap;
    if topic == "Unknown" {
      topicMap' := topicMap + ["Unknown"];
    } else {
      var found, j := FindSimilar(canon, topic, similar);
      if found {
        topicMap' := topicMap + [canon[j]];
      } else {
        canon' := canon + [topic];
        topicMap' := topicMap + [topic];
      }
    }
  }

  /** The inner `for ... of canonicalTopics` loop: the first canonical
      topic similar to `topic`, found by walking the list and breaking. */
  method FindSimilar(canon: seq<string>, topic: string, similar: (string, string) -> bool) returns (found: bool, j: nat)
    ensures found <==> FirstSimilar(canon, topic, similar).Some?
    ensures found ==> FirstSimilar(canon, topic, similar) == Some(j)
  {
    found := false;
    j := 0;
    while j < |canon|
      invariant 0 <= j <= |canon|
      invariant forall m :: 0 <= m < j ==> !similar(topic, canon[m])
    {
      if similar(topic, canon[j]) {
        found := true;
        return;
      }
      j := j + 1;
    }
  }

  /** The two fields an item gains. */
  datatype Label = Label(sentiment: string, topic: string)

  /** `sentiments[k]?.sentiment || 'Neutral'` and `topicMap[k] || 'Unknown'`. */
  function LabelAt(sentiments: seq<G.Verdict>, topicMap: seq<string>, k: nat): (r: Label)
    ensures r.sentiment != [] && r.topic != []
    ensures k < |sentiments| && sentiments[k].sentiment != "" ==> r.sentiment == sentiments[k].sentiment
    ensures k < |topicMap| && topicMap[k] != "" ==> r.topic == topicMap[k]
  {
    Label(if k < |sentiments| && sentiments[k].sentiment != "" then sentiments[k].sentiment else "Neutral",
          if k < |topicMap| && topicMap[k] != "" then topicMap[k] else "Unknown")
  }

  /** The labels of a batch: the sentiments, and the grouping of their topics. */
  function Labels(sentiments: seq<G.Verdict>, similar: (string, string) -> bool): (topicMap: seq<string>)
    ensures |topicMap| == |sentiments|
  {
    Canonicalize(NormalizeTopics(sentiments), similar).topicMap
  }

  /** Every label's topic is "Unknown" or a canonical topic. */
  lemma LabelTopics(sentiments: seq<G.Verdict>, similar: (string, string) -> bool, k: nat)
    ensures var g := Canonicalize(NormalizeTopics(sentiments), similar);
      LabelAt(sentiments, g.topicMap, k).topic == "Unknown" || LabelAt(sentiments, g.topicMap, k).topic in g.canon
  {
  }
}
