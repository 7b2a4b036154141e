/** The statistics of the advanced CSV converter
    (convert_to_csv_advanced.js): what one `generateStats` call adds to the
    running `stats` object, and what calling it twice does. */
module CsvStats {
  import opened Wrappers
  import opened JsObject
  import opened CsvExport

  /** `this.stats`.  The two distributions are objects keyed by sentiment
      and by category. */
  datatype Stats = Stats(totalCategories: nat, totalTweets: nat, totalNewsArticles: nat,
                         sentimentDistribution: Obj<nat>, categoryDistribution: Obj<nat>)

  /** The statistics a new converter starts with. */
  const Fresh := Stats(0, 0, 0, [], [])

  /** `item.news.length` when `news` is an array, else nothing. */
  function NewsLength(item: Item): nat {
    if item.news.Articles? then |item.news.list| else 0
  }

  /** One item of an array category: a valid item counts as a tweet, tallies
      its sentiment and adds its articles. */
  function CountItem(s: Stats, item: Item): Stats {
    if Valid(item) then
      s.(totalTweets := s.totalTweets + 1,
         sentimentDistribution := Tally(s.sentimentDistribution, item.sentiment),
         totalNewsArticles := s.totalNewsArticles + NewsLength(item))
    else s
  }

  function CountItems(s: Stats, items: seq<Item>): Stats {
    if items == [] then s else CountItem(CountItems(s, items[..|items| - 1]), items[|items| - 1])
  }

  /** One category: an array records its length under its name, then
      counts its items; anything else is passed over. */
  function CountEntry(s: Stats, e: Entry): Stats {
    match e.value
    case Array(items) => CountItems(s.(categoryDistribution := Set<nat>(s.categoryDistribution, e.category, |items|)), items)
    case NotArray => s
  }

  function CountData(s: Stats, data: seq<Entry>): Stats {
    if data == [] then s else CountEntry(CountData(s, data[..|data| - 1]), data[|data| - 1])
  }

  /** `generateStats` from statistics `s`: the number of keys is assigned,
      then every category is counted into `s`. */
  function Generated(s: Stats, data: seq<Entry>): (r: Stats)
    ensures r.totalCategories == |data|
    ensures r.totalTweets == s.totalTweets + |ValidSentiments(data)|
    ensures r.totalNewsArticles == s.totalNewsArticles + NewsCount(data)
  {
    CountDataEffect(s.(totalCategories := |data|), data);
    CountData(s.(totalCategories := |data|), data)
  }

  // Reference definitions, stated over the results object alone.

  /** The sentiments of the valid items, in category order then item order. */
  function ItemSentiments(items: seq<Item>): seq<string> {
    if items == [] then []
    else
      var last := items[|items| - 1];
      ItemSentiments(items[..|items| - 1]) + (if Valid(last) then [last.sentiment] else [])
  }

  function EntrySentiments(e: Entry): seq<string> {
    match e.value
    case Array(items) => ItemSentiments(items)
    case NotArray => []
  }

  function ValidSentiments(data: seq<Entry>): seq<string> {
    if data == [] then [] else ValidSentiments(data[..|data| - 1]) + EntrySentiments(data[|data| - 1])
  }

  /** The articles of the valid items. */
  function ItemsNews(items: seq<Item>): nat {
    if items == [] then 0
    else
      var last := items[|items| - 1];
      ItemsNews(items[..|items| - 1]) + (if Valid(last) then NewsLength(last) else 0)
  }

  function EntryNews(e: Entry): nat {
    match e.value
    case Array(items) => ItemsNews(items)
    case NotArray => 0
  }

  function NewsCount(data: seq<Entry>): nat {
    if data == [] then 0 else NewsCount(data[..|data| - 1]) + EntryNews(data[|data| - 1])
  }

  /** The length of the last array category named `c`. */
  function LastLength(data: seq<Entry>, c: string): Option<nat> {
    if data == [] then None
    else
      var e := data[|data| - 1];
      if e.category == c && e.value.Array? then Some(|e.value.items|) else LastLength(data[..|data| - 1], c)
  }

  /** The category lengths written into `m`, one assignment per array
      category. */
  function AssignLengths(m: Obj<nat>, data: seq<Entry>): Obj<nat> {
    if data == [] then m
    else
      var e := data[|data| - 1];
      var before := AssignLengths(m, data[..|data| - 1]);
      if e.value.Array? then Set<nat>(before, e.category, |e.value.items|) else before
  }

  /** The sentiment counts stay duplicate-free and sum to the tweet count. */
  predicate Consistent(s: Stats) {
    DistinctKeys(s.sentimentDistribution) && Total(s.sentimentDistribution) == s.totalTweets
  }

  lemma {:induction false} CountItemsTotals(s: Stats, items: seq<Item>)
    ensures var r := CountItems(s, items);
      r.totalTweets == s.totalTweets + |ItemSentiments(items)| &&
      r.totalNewsArticles == s.totalNewsArticles + ItemsNews(items) &&
      r.totalCategories == s.totalCategories && r.categoryDistribution == s.categoryDistribution
  {
    if items != [] {
      CountItemsTotals(s, items[..|items| - 1]);
    }
  }

  lemma {:induction false} CountItemsTallies(s: Stats, items: seq<Item>, k: string)
    ensures Count(CountItems(s, items).sentimentDistribution, k) == Count(s.sentimentDistribution, k) + multiset(ItemSentiments(items))[k]
  {
    if items != [] {
      var init, last := items[..|items| - 1], items[|items| - 1];
      CountItemsTallies(s, init, k);
      if Valid(last) {
        CountTally(CountItems(s, init).sentimentDistribution, last.sentiment, k);
      }
    }
  }

  lemma {:induction false} CountItemsConsistent(s: Stats, items: seq<Item>)
    requires Consistent(s)
    ensures Consistent(CountItems(s, items))
  {
    if items != [] {
      var init, last := items[..|items| - 1], items[|items| - 1];
      CountItemsConsistent(s, init);
      var d := CountItems(s, init).sentimentDistribution;
      if Valid(last) {
        TotalTally(d, last.sentiment);
        SetDistinct<nat>(d, last.sentiment, Count(d, last.sentiment) + 1);
      }
    }
  }

  /** What counting a run of items adds: one tweet and one tally per valid
      item, and its articles; the category fields are untouched. */
  lemma CountItemsEffect(s: Stats, items: seq<Item>)
    ensures var r := CountItems(s, items);
      r.totalTweets == s.totalTweets + |ItemSentiments(items)| &&
      r.totalNewsArticles == s.totalNewsArticles + ItemsNews(items) &&
      r.totalCategories == s.totalCategories && r.categoryDistribution == s.categoryDistribution &&
      (forall k :: Count(r.sentimentDistribution, k) == Count(s.sentimentDistribution, k) + multiset(ItemSentiments(items))[k]) &&
      (Consistent(s) ==> Consistent(r))
  {
    CountItemsTotals(s, items);
    forall k
      ensures Count(CountItems(s, items).sentimentDistribution, k) == Count(s.sentimentDistribution, k) + multiset(ItemSentiments(items))[k]
    {
      CountItemsTallies(s, items, k);
    }
    if Consistent(s) {
      CountItemsConsistent(s, items);
    }
  }

  /** What counting one category adds. */
  lemma CountEntryEffect(s: Stats, e: Entry)
    ensures var r := CountEntry(s, e);
      r.totalTweets == s.totalTweets + |EntrySentiments(e)| &&
      r.totalNewsArticles == s.totalNewsArticles + EntryNews(e) &&
      r.totalCategories == s.totalCategories &&
      r.categoryDistribution == (if e.value.Array? then Set<nat>(s.categoryDistribution, e.category, |e.value.items|) else s.categoryDistribution) &&
      (forall k :: Count(r.sentimentDistribution, k) == Count(s.sentimentDistribution, k) + multiset(EntrySentiments(e))[k]) &&
      (Consistent(s) ==> Consistent(r))
  {
    if e.value.Array? {
      CountItemsEffect(s.(categoryDistribution := Set<nat>(s.categoryDistribution, e.category, |e.value.items|)), e.value.items);
    }
  }

  /** What counting the whole results object adds to `s`. */
  lemma {:induction false} CountDataEffect(s: Stats, data: seq<Entry>)
    ensures var r := CountData(s, data);
      r.totalTweets == s.totalTweets + |ValidSentiments(data)| &&
      r.totalNewsArticles == s.totalNewsArticles + NewsCount(data) &&
      r.totalCategories == s.totalCategories &&
      r.categoryDistribution == AssignLengths(s.categoryDistribution, data) &&
      (forall k :: Count(r.sentimentDistribution, k) == Count(s.sentimentDistribution, k) + multiset(ValidSentiments(data))[k]) &&
      (Consistent(s) ==> Consistent(r))
  {
    if data != [] {
      var init, last := data[..|data| - 1], data[|data| - 1];
      CountDataEffect(s, init);
      CountEntryEffect(CountData(s, init), last);
    }
  }

  /** Reading a category count back: the length of the last array category
      of that name, else what `m` held. */
  lemma {:induction false} AssignLengthsGet(m: Obj<nat>, data: seq<Entry>, c: string)
    ensures Get(AssignLengths(m, data), c) == match LastLength(data, c) { case Some(n) => Some(n) case None => Get(m, c) }
  {
    if data != [] {
      var e := data[|data| - 1];
      AssignLengthsGet(m, data[..|data| - 1], c);
      if e.value.Array? {
        GetSet<nat>(AssignLengths(m, data[..|data| - 1]), e.category, |e.value.items|, c);
      }
    }
  }

  lemma {:induction false} AssignLengthsDistinct(m: Obj<nat>, data: seq<Entry>)
    requires DistinctKeys(m)
    ensures DistinctKeys(AssignLengths(m, data))
  {
    if data != [] {
      var e := data[|data| - 1];
      AssignLengthsDistinct(m, data[..|data| - 1]);
      if e.value.Array? {
        SetDistinct<nat>(AssignLengths(m, data[..|data| - 1]), e.category, |e.value.items|);
      }
    }
  }

  /** Assigning lengths to categories an object already has keeps its keys
      and their order. */
  lemma {:induction false} AssignLengthsKeys(m: Obj<nat>, data: seq<Entry>)
    requires forall c :: LastLength(data, c).Some? ==> c in Keys(m)
    ensures Keys(AssignLengths(m, data)) == Keys(m)
  {
    if data != [] {
      var init := data[..|data| - 1];
      forall c | LastLength(init, c).Some?
        ensures c in Keys(m)
      {
        LastLengthPrefix(data, c);
      }
      AssignLengthsKeys(m, init);
      var e := data[|data| - 1];
      if e.value.Array? {
        assert LastLength(data, e.category).Some?;
      }
    }
  }

  lemma LastLengthPrefix(data: seq<Entry>, c: string)
    requires data != [] && LastLength(data[..|data| - 1], c).Some?
    ensures LastLength(data, c).Some?
  {
  }

  /** `categoryDistribution` is assigned, not accumulated: a second round of
      assignments from the same results changes nothing. */
  lemma AssignLengthsTwice(m: Obj<nat>, data: seq<Entry>)
    requires DistinctKeys(m)
    ensures AssignLengths(AssignLengths(m, data), data) == AssignLengths(m, data)
  {
    var a := AssignLengths(m, data);
    var b := AssignLengths(a, data);
    AssignLengthsDistinct(m, data);
    AssignLengthsDistinct(a, data);
    forall c | LastLength(data, c).Some?
      ensures c in Keys(a)
    {
      AssignLengthsGet(m, data, c);
    }
    AssignLengthsKeys(a, data);
    forall c
      ensures Get(b, c) == Get(a, c)
    {
      AssignLengthsGet(a, data, c);
      AssignLengthsGet(m, data, c);
    }
    SameEntries(b, a);
  }

  /** After one `generateStats` on a new converter: every key is counted as
      a category; the tweets are the valid items, whose sentiments the
      distribution counts and whose articles the article count sums; and
      the sentiment counts add up to the tweet count. */
  lemma StatsAfterOneCall(data: seq<Entry>)
    ensures var g := Generated(Fresh, data);
      g.totalCategories == |data| &&
      g.totalTweets == |ValidSentiments(data)| &&
      g.totalNewsArticles == NewsCount(data) &&
      (forall k :: Count(g.sentimentDistribution, k) == multiset(ValidSentiments(data))[k]) &&
      Total(g.sentimentDistribution) == g.totalTweets &&
      (forall c :: Get(g.categoryDistribution, c) == LastLength(data, c))
  {
    var s := Fresh.(totalCategories := |data|);
    CountDataEffect(s, data);
    forall c
      ensures Get(Generated(Fresh, data).categoryDistribution, c) == LastLength(data, c)
    {
      AssignLengthsGet([], data, c);
    }
  }

  /** In a results object with distinct keys (as every JavaScript object
      has), each array category's count is its number of items, valid or
      not. */
  lemma {:induction false} LastLengthOfKey(data: seq<Entry>, i: nat)
    requires i < |data| && data[i].value.Array?
    requires forall p, q :: 0 <= p < q < |data| ==> data[p].category != data[q].category
    ensures LastLength(data, data[i].category) == Some(|data[i].value.items|)
  {
    if i < |data| - 1 {
      LastLengthOfKey(data[..|data| - 1], i);
    }
  }

  /** `generateStats` is not idempotent: a second call on the same converter
      doubles the tweet count, the article count and every sentiment count,
      while the category count and the category distribution stay as they
      were. */
  lemma SecondCallDoubles(data: seq<Entry>)
    ensures var once := Generated(Fresh, data);
      var twice := Generated(once, data);
      twice.totalTweets == 2 * once.totalTweets &&
      twice.totalNewsArticles == 2 * once.totalNewsArticles &&
      (forall k :: Count(twice.sentimentDistribution, k) == 2 * Count(once.sentimentDistribution, k)) &&
      twice.totalCategories == once.totalCategories &&
      twice.categoryDistribution == once.categoryDistribution &&
      Consistent(twice)
  {
    var once := Generated(Fresh, data);
    CountDataEffect(Fresh.(totalCategories := |data|), data);
    CountDataEffect(once.(totalCategories := |data|), data);
    AssignLengthsTwice([], data);
  }

  lemma CountItemsSnoc(s: Stats, items: seq<Item>, j: nat)
    requires j < |items|
    ensures CountItems(s, items[..j + 1]) == CountItem(CountItems(s, items[..j]), items[j])
  {
    assert items[..j + 1][..j] == items[..j];
  }

  lemma CountDataSnoc(s: Stats, data: seq<Entry>, i: nat)
    requires i < |data|
    ensures CountData(s, data[..i + 1]) == CountEntry(CountData(s, data[..i]), data[i])
  {
    assert data[..i + 1][..i] == data[..i];
  }

  /** A valid item's three updates, made one after another. */
  lemma CountValidItem(s: Stats, item: Item)
    requires Valid(item)
    ensures var t := s.(totalTweets := s.totalTweets + 1);
      var u := t.(sentimentDistribution := Tally(t.sentimentDistribution, item.sentiment));
      CountItem(s, item) == if item.news.Articles? then u.(totalNewsArticles := u.totalNewsArticles + |item.news.list|) else u
  {
  }
}
