/** The flattened and summary tables of the advanced CSV converter
    (convert_to_csv_advanced.js), stated over the valid items of the
    results object. */
module CsvViews {
  import opened Wrappers
  import opened JsText
  import opened JsObject
  import opened CsvExport
  import CsvStats

  /** A valid item with the category it was listed under. */
  type Tweet = (string, Item)

  function ItemTweets(category: string, items: seq<Item>): (r: seq<Tweet>)
    ensures forall i :: 0 <= i < |r| ==> Valid(r[i].1) && r[i].0 == category
  {
    if items == [] then []
    else
      var last := items[|items| - 1];
      ItemTweets(category, items[..|items| - 1]) + (if Valid(last) then [(category, last)] else [])
  }

  function EntryTweets(e: Entry): (r: seq<Tweet>)
    ensures forall i :: 0 <= i < |r| ==> Valid(r[i].1)
  {
    match e.value
    case Array(items) => ItemTweets(e.category, items)
    case NotArray => []
  }

  /** The items with a tweet and a sentiment, in category order then item
      order: the items every table of the converter is built from. */
  function ValidTweets(data: seq<Entry>): (r: seq<Tweet>)
    ensures forall i :: 0 <= i < |r| ==> Valid(r[i].1)
  {
    if data == [] then [] else ValidTweets(data[..|data| - 1]) + EntryTweets(data[|data| - 1])
  }

  // The flattened table.

  const FlatHeader := ["Category", "Tweet_Index", "Tweet", "Sentiment", "News_Index", "News_Title", "News_Link"]

  /** The rows of the `n`-th valid item: one per article numbered from 1,
      or one with article number 0 and empty news cells. */
  function FlatRows(category: string, n: nat, item: Item): (r: seq<seq<string>>)
    ensures forall i :: 0 <= i < |r| ==> |r[i]| == 7
  {
    if HasArticles(item) then ArticleRows(category, n, item, item.news.list)
    else [FlatRow(category, n, item, 0, "", "")]
  }

  /** The rows of the articles `list` of the `n`-th valid item, the `k`-th
      of them numbered `k`. */
  function ArticleRows(category: string, n: nat, item: Item, list: seq<Article>): (r: seq<seq<string>>)
    ensures |r| == |list| && forall i :: 0 <= i < |r| ==> |r[i]| == 7
  {
    if list == [] then []
    else ArticleRows(category, n, item, list[..|list| - 1]) + [ArticleRow(category, n, item, |list|, list[|list| - 1])]
  }

  function ArticleRow(category: string, n: nat, item: Item, k: nat, a: Article): seq<string> {
    FlatRow(category, n, item, k, EscapeField(a.title), EscapeField(a.link))
  }

  lemma {:induction false} ArticleRowsAt(category: string, n: nat, item: Item, list: seq<Article>, i: nat)
    requires i < |list|
    ensures ArticleRows(category, n, item, list)[i] == ArticleRow(category, n, item, i + 1, list[i])
  {
    if i < |list| - 1 {
      ArticleRowsAt(category, n, item, list[..|list| - 1], i);
    }
  }

  /** One flattened row; the two indexes are numbers, written in decimal. */
  function FlatRow(category: string, n: nat, item: Item, newsIndex: nat, title: string, link: string): (r: seq<string>)
    ensures |r| == 7
  {
    [EscapeField(category), NatToString(n), EscapeField(item.tweet), EscapeField(item.sentiment), NatToString(newsIndex), title, link]
  }

  /** The data rows of the flattened table: the `n`-th valid item is given
      Tweet_Index `n`, counting across categories. */
  function FlatTable(tweets: seq<Tweet>): (r: seq<seq<string>>)
    ensures forall i :: 0 <= i < |r| ==> |r[i]| == 7
  {
    if tweets == [] then []
    else
      var last := tweets[|tweets| - 1];
      FlatTable(tweets[..|tweets| - 1]) + FlatRows(last.0, |tweets|, last.1)
  }

  /** `toFlattenedCsv`: the header and the data rows, joined by "\n". */
  function FlattenedCsv(data: seq<Entry>): (r: string)
    ensures Join(FlatHeader, ",") <= r
  {
    LinesHead([FlatHeader] + FlatTable(ValidTweets(data)));
    Join(Lines([FlatHeader] + FlatTable(ValidTweets(data))), "\n")
  }

  /** The header line and the lines of the valid items `tweets`, pushed
      one item at a time. */
  function FlatLines(tweets: seq<Tweet>): seq<string> {
    if tweets == [] then [Join(FlatHeader, ",")]
    else
      var last := tweets[|tweets| - 1];
      FlatLines(tweets[..|tweets| - 1]) + Lines(FlatRows(last.0, |tweets|, last.1))
  }

  /** A flattened row without its two index cells. */
  function Strip(row: seq<string>): seq<string>
    requires |row| == 7
  {
    [row[0], row[2], row[3], row[5], row[6]]
  }

  function StripAll(rows: seq<seq<string>>): (r: seq<seq<string>>)
    requires forall i :: 0 <= i < |rows| ==> |rows[i]| == 7
    ensures |r| == |rows|
  {
    seq(|rows|, i requires 0 <= i < |rows| => Strip(rows[i]))
  }

  lemma StripAllAppend(a: seq<seq<string>>, b: seq<seq<string>>)
    requires forall i :: 0 <= i < |a| ==> |a[i]| == 7
    requires forall i :: 0 <= i < |b| ==> |b[i]| == 7
    ensures StripAll(a + b) == StripAll(a) + StripAll(b)
  {
  }

  /** Dropping the index cells of a valid item's flattened rows leaves its
      standard rows. */
  lemma StripFlatRows(category: string, n: nat, item: Item)
    requires Valid(item)
    ensures StripAll(FlatRows(category, n, item)) == ItemRows(category, item)
  {
    if HasArticles(item) {
      var list := item.news.list;
      forall k | 0 <= k < |list|
        ensures StripAll(FlatRows(category, n, item))[k] == ItemRows(category, item)[k]
      {
        ArticleRowsAt(category, n, item, list, k);
      }
    }
  }

  function TweetRows(t: Tweet): seq<seq<string>> {
    ItemRows(t.0, t.1)
  }

  lemma {:induction false} StripFlatTable(tweets: seq<Tweet>)
    requires forall i :: 0 <= i < |tweets| ==> Valid(tweets[i].1)
    ensures StripAll(FlatTable(tweets)) == ConcatMap(tweets, TweetRows)
  {
    if tweets != [] {
      var init, last := tweets[..|tweets| - 1], tweets[|tweets| - 1];
      StripFlatTable(init);
      StripAllAppend(FlatTable(init), FlatRows(last.0, |tweets|, last.1));
      StripFlatRows(last.0, |tweets|, last.1);
    }
  }

  lemma {:induction false} ItemTweetsRows(category: string, items: seq<Item>)
    ensures ConcatMap(ItemTweets(category, items), TweetRows) == ItemsRows(category, items)
  {
    if items != [] {
      var init, last := items[..|items| - 1], items[|items| - 1];
      ItemTweetsRows(category, init);
      ConcatMapSnoc(items, |items| - 1, (item: Item) => ItemRows(category, item));
      assert items[..|items| - 1 + 1] == items;
      if Valid(last) {
        ConcatMapAppend(ItemTweets(category, init), [(category, last)], TweetRows);
        ConcatMapOne((category, last), TweetRows);
      } else {
        assert ItemTweets(category, items) == ItemTweets(category, init);
      }
    }
  }

  lemma {:induction false} ValidTweetsRows(data: seq<Entry>)
    ensures ConcatMap(ValidTweets(data), TweetRows) == DataRows(data)
  {
    if data != [] {
      var init, last := data[..|data| - 1], data[|data| - 1];
      ValidTweetsRows(init);
      ConcatMapAppend(ValidTweets(init), EntryTweets(last), TweetRows);
      if last.value.Array? {
        ItemTweetsRows(last.category, last.value.items);
      }
    }
  }

  /** The flattened table is the standard table with two index columns
      inserted: dropping them gives exactly the rows `convertJsonToCsv`
      writes, in the same order. */
  lemma FlatMatchesStandard(data: seq<Entry>)
    ensures StripAll(FlatTable(ValidTweets(data))) == DataRows(data)
  {
    StripFlatTable(ValidTweets(data));
    ValidTweetsRows(data);
  }

  lemma {:induction false} FlatTablePrefix(tweets: seq<Tweet>, m: nat)
    requires m <= |tweets|
    ensures FlatTable(tweets[..m]) <= FlatTable(tweets)
  {
    if m < |tweets| {
      FlatTablePrefix(tweets[..|tweets| - 1], m);
      assert tweets[..|tweets| - 1][..m] == tweets[..m];
    } else {
      assert tweets[..m] == tweets;
    }
  }

  /** The rows of the `n`-th valid item follow those of the items before
      it, as one block. */
  lemma TweetBlock(tweets: seq<Tweet>, n: nat)
    requires 1 <= n <= |tweets|
    ensures FlatTable(tweets[..n - 1]) + FlatRows(tweets[n - 1].0, n, tweets[n - 1].1) <= FlatTable(tweets)
  {
    FlatTablePrefix(tweets, n);
    var pre := tweets[..n];
    assert |pre| == n && pre[..n - 1] == tweets[..n - 1] && pre[n - 1] == tweets[n - 1];
    assert FlatTable(pre) == FlatTable(pre[..|pre| - 1]) + FlatRows(pre[|pre| - 1].0, |pre|, pre[|pre| - 1].1);
  }

  /** Every row of the `n`-th valid item's block has Tweet_Index `n`; its
      News_Index runs 1, 2, … over the articles, or is 0 without news. */
  lemma BlockIndexes(category: string, n: nat, item: Item, i: nat)
    requires i < |FlatRows(category, n, item)|
    ensures var row := FlatRows(category, n, item)[i];
      AllDigits(row[1]) && DigitsValue(row[1]) == n
    ensures var row := FlatRows(category, n, item)[i];
      AllDigits(row[4]) && DigitsValue(row[4]) == if HasArticles(item) then i + 1 else 0
  {
    if HasArticles(item) {
      var a := item.news.list[i];
      ArticleRowsAt(category, n, item, item.news.list, i);
      FlatRowIndexes(category, n, item, i + 1, EscapeField(a.title), EscapeField(a.link));
    } else {
      FlatRowIndexes(category, n, item, 0, "", "");
    }
  }

  lemma FlatRowIndexes(category: string, n: nat, item: Item, k: nat, title: string, link: string)
    ensures var row := FlatRow(category, n, item, k, title, link);
      AllDigits(row[1]) && DigitsValue(row[1]) == n && AllDigits(row[4]) && DigitsValue(row[4]) == k
  {
  }

  lemma ItemTweetsSnoc(category: string, items: seq<Item>, j: nat)
    requires j < |items|
    ensures ItemTweets(category, items[..j + 1]) == ItemTweets(category, items[..j]) + (if Valid(items[j]) then [(category, items[j])] else [])
  {
    assert items[..j + 1][..j] == items[..j];
  }

  /** The valid items of a category seen so far, one more item on. */
  lemma SeenStep(done: seq<Tweet>, category: string, items: seq<Item>, j: nat, seen: seq<Tweet>)
    requires j < |items| && seen == done + ItemTweets(category, items[..j])
    ensures done + ItemTweets(category, items[..j + 1]) == seen + (if Valid(items[j]) then [(category, items[j])] else [])
  {
    ItemTweetsSnoc(category, items, j);
  }

  lemma ValidTweetsSnoc(data: seq<Entry>, i: nat)
    requires i < |data|
    ensures ValidTweets(data[..i + 1]) == ValidTweets(data[..i]) + EntryTweets(data[i])
  {
    assert data[..i + 1][..i] == data[..i];
  }

  /** Pushing the lines item by item gives the lines of the whole table. */
  lemma {:induction false} FlatLinesTable(tweets: seq<Tweet>)
    ensures FlatLines(tweets) == Lines([FlatHeader] + FlatTable(tweets))
  {
    if tweets == [] {
      LinesOne(FlatHeader);
    } else {
      var init, last := tweets[..|tweets| - 1], tweets[|tweets| - 1];
      FlatLinesTable(init);
      LinesAfterHeader(FlatHeader, FlatTable(init), FlatRows(last.0, |tweets|, last.1));
    }
  }

  lemma FlatTableSnoc(done: seq<Tweet>, t: Tweet)
    ensures FlatTable(done + [t]) == FlatTable(done) + FlatRows(t.0, |done| + 1, t.1)
  {
    var s := done + [t];
    assert s[..|s| - 1] == done && s[|s| - 1] == t;
  }

  /** The lines so far, after the next valid item's rows are pushed. */
  lemma FlatPushStep(seen: seq<Tweet>, category: string, item: Item, out: seq<string>)
    requires out == FlatLines(seen)
    ensures out + Lines(FlatRows(category, |seen| + 1, item)) == FlatLines(seen + [(category, item)])
  {
    var s := seen + [(category, item)];
    assert s[..|s| - 1] == seen && s[|s| - 1] == (category, item);
  }

  /** The lines so far, after the next article's row is pushed. */
  lemma ArticlePushStep(rows: seq<string>, category: string, n: nat, item: Item, list: seq<Article>, k: nat, out: seq<string>)
    requires k < |list| && out == rows + Lines(ArticleRows(category, n, item, list[..k]))
    ensures out + [Join(ArticleRow(category, n, item, k + 1, list[k]), ",")] == rows + Lines(ArticleRows(category, n, item, list[..k + 1]))
  {
    ArticleRowsPrefix(category, n, item, list, k);
    LinesSnoc(ArticleRows(category, n, item, list[..k]), ArticleRow(category, n, item, k + 1, list[k]));
  }

  lemma ArticleRowsPrefix(category: string, n: nat, item: Item, list: seq<Article>, k: nat)
    requires k < |list|
    ensures ArticleRows(category, n, item, list[..k + 1]) == ArticleRows(category, n, item, list[..k]) + [ArticleRow(category, n, item, k + 1, list[k])]
  {
    assert list[..k + 1][..k] == list[..k];
  }

  // The summary table.

  const SummaryHeader := ["Category", "Sentiment", "Tweet_Count", "News_Count"]

  /** One summary entry. */
  datatype Group = Group(category: string, sentiment: string, tweetCount: nat, newsCount: nat)

  /** `${category}_${sentiment}`. */
  function Key(category: string, sentiment: string): string {
    category + "_" + sentiment
  }

  function TweetKey(t: Tweet): string {
    Key(t.0, t.1.sentiment)
  }

  /** One valid item: its key's entry is created on first sight with the
      item's category and sentiment, then counts the tweet and its
      articles. */
  function AddTweet(summary: Obj<Group>, t: Tweet): Obj<Group> {
    Set(summary, TweetKey(t), Bump(Current(summary, t), t.1))
  }

  /** The entry after one more tweet and its articles. */
  function Bump(g: Group, item: Item): Group {
    g.(tweetCount := g.tweetCount + 1, newsCount := g.newsCount + CsvStats.NewsLength(item))
  }

  function Summarize(tweets: seq<Tweet>): Obj<Group> {
    if tweets == [] then [] else AddTweet(Summarize(tweets[..|tweets| - 1]), tweets[|tweets| - 1])
  }

  function SummaryRow(g: Group): seq<string> {
    [EscapeField(g.category), EscapeField(g.sentiment), NatToString(g.tweetCount), NatToString(g.newsCount)]
  }

  function SummaryTable(summary: Obj<Group>): (r: seq<seq<string>>)
    ensures |r| == |summary|
  {
    seq(|summary|, i requires 0 <= i < |summary| => SummaryRow(summary[i].1))
  }

  /** `toSummaryCsv`: the header, then one row per key in the order keys
      were first seen (a key always holds "_", so it is never an array
      index and `for … in` keeps that order), joined by "\n". */
  function SummaryCsv(data: seq<Entry>): (r: string)
    ensures Join(SummaryHeader, ",") <= r
  {
    LinesHead([SummaryHeader] + SummaryTable(Summarize(ValidTweets(data))));
    Join(Lines([SummaryHeader] + SummaryTable(Summarize(ValidTweets(data)))), "\n")
  }

  /** The header line and the lines of the entries of `summary`, pushed one
      entry at a time. */
  function SummaryLines(summary: Obj<Group>): seq<string> {
    if summary == [] then [Join(SummaryHeader, ",")]
    else SummaryLines(summary[..|summary| - 1]) + [Join(SummaryRow(summary[|summary| - 1].1), ",")]
  }

  lemma {:induction false} SummaryLinesTable(summary: Obj<Group>)
    ensures SummaryLines(summary) == Lines([SummaryHeader] + SummaryTable(summary))
  {
    if summary == [] {
      LinesOne(SummaryHeader);
    } else {
      var init := summary[..|summary| - 1];
      SummaryLinesTable(init);
      var row := SummaryRow(summary[|summary| - 1].1);
      SummaryTableSnoc(summary);
      LinesAfterHeader(SummaryHeader, SummaryTable(init), [row]);
      LinesOne(row);
    }
  }

  lemma SummaryTableSnoc(summary: Obj<Group>)
    requires summary != []
    ensures SummaryTable(summary) == SummaryTable(summary[..|summary| - 1]) + [SummaryRow(summary[|summary| - 1].1)]
  {
  }

  lemma SummaryLinesSnoc(summary: Obj<Group>, k: nat)
    requires k < |summary|
    ensures SummaryLines(summary[..k + 1]) == SummaryLines(summary[..k]) + [Join(SummaryRow(summary[k].1), ",")]
  {
    assert summary[..k + 1][..k] == summary[..k];
  }

  /** `AddTweet` done the converter's way: create the entry with zero
      counts when the key is new, then update it. */
  lemma AddTweetInPlace(summary: Obj<Group>, t: Tweet)
    ensures var key := TweetKey(t);
      var created := if Get(summary, key).None? then Set(summary, key, Group(t.0, t.1.sentiment, 0, 0)) else summary;
      Get(created, key).Some? && AddTweet(summary, t) == Set(created, key, Bump(Get(created, key).value, t.1))
  {
    var key := TweetKey(t);
    if Get(summary, key).None? {
      var g0 := Group(t.0, t.1.sentiment, 0, 0);
      GetSet(summary, key, g0, key);
      SetSet(summary, key, g0, Bump(g0, t.1));
    }
  }

  /** An entry whose counts grew by one tweet and the item's articles is
      the bumped entry. */
  lemma BumpCounts(g: Group, item: Item, bumped: Group)
    requires bumped.category == g.category && bumped.sentiment == g.sentiment
    requires bumped.tweetCount == g.tweetCount + 1 && bumped.newsCount == g.newsCount + CsvStats.NewsLength(item)
    ensures bumped == Bump(g, item)
  {
  }

  lemma SummarizeSnoc(seen: seq<Tweet>, t: Tweet)
    ensures Summarize(seen + [t]) == AddTweet(Summarize(seen), t)
  {
    var s := seen + [t];
    assert s[..|s| - 1] == seen && s[|s| - 1] == t;
  }

  /** The keys in the order they first occur. */
  function FirstSeen(keys: seq<string>): seq<string> {
    if keys == [] then []
    else
      var before := FirstSeen(keys[..|keys| - 1]);
      if keys[|keys| - 1] in before then before else before + [keys[|keys| - 1]]
  }

  function TweetKeys(tweets: seq<Tweet>): (r: seq<string>)
    ensures |r| == |tweets| && forall i :: 0 <= i < |tweets| ==> r[i] == TweetKey(tweets[i])
  {
    seq(|tweets|, i requires 0 <= i < |tweets| => TweetKey(tweets[i]))
  }

  function GroupTweets(g: Group): nat {
    g.tweetCount
  }

  /** The entry a valid item updates, before the update. */
  function Current(summary: Obj<Group>, t: Tweet): Group {
    match Get(summary, TweetKey(t))
    case Some(g) => g
    case None => Group(t.0, t.1.sentiment, 0, 0)
  }

  /** The summary has one entry per distinct key, in the order the keys
      were first seen. */
  lemma {:induction false} SummaryKeys(tweets: seq<Tweet>)
    ensures DistinctKeys(Summarize(tweets)) && Keys(Summarize(tweets)) == FirstSeen(TweetKeys(tweets))
  {
    if tweets != [] {
      var init, t := tweets[..|tweets| - 1], tweets[|tweets| - 1];
      SummaryKeys(init);
      var p := Summarize(init);
      SetDistinct(p, TweetKey(t), Bump(Current(p, t), t.1));
      assert TweetKeys(tweets)[..|tweets| - 1] == TweetKeys(init);
    }
  }

  /** Every entry's category and sentiment spell its key. */
  lemma {:induction false} SummarySpellsKeys(tweets: seq<Tweet>, key: string)
    requires Get(Summarize(tweets), key).Some?
    ensures var g := Get(Summarize(tweets), key).value; Key(g.category, g.sentiment) == key
  {
    if tweets != [] {
      var init, t := tweets[..|tweets| - 1], tweets[|tweets| - 1];
      var p := Summarize(init);
      GetSet(p, TweetKey(t), Bump(Current(p, t), t.1), key);
      if key != TweetKey(t) || Get(p, key).Some? {
        SummarySpellsKeys(init, key);
      }
    }
  }

  /** The Tweet_Count values add up to the number of valid items. */
  lemma {:induction false} SummaryTweetTotal(tweets: seq<Tweet>)
    ensures TotalBy(Summarize(tweets), GroupTweets) == |tweets|
  {
    if tweets != [] {
      var init, t := tweets[..|tweets| - 1], tweets[|tweets| - 1];
      SummaryTweetTotal(init);
      SummaryKeys(init);
      var p := Summarize(init);
      TotalBySet(p, TweetKey(t), Bump(Current(p, t), t.1), GroupTweets);
    }
  }

  /** Distinct (category, sentiment) pairs can share a key: a tweet in
      category "a_b" with sentiment "c" and one in category "a" with
      sentiment "b_c" land in one entry, which keeps the first pair and
      counts both tweets. */
  lemma KeysCollide(x: Item, y: Item)
    requires x.sentiment == "c" && y.sentiment == "b_c" && x.tweet != "" && y.tweet != ""
    ensures Summarize([("a_b", x), ("a", y)]) == [("a_b_c", Group("a_b", "c", 2, CsvStats.NewsLength(x) + CsvStats.NewsLength(y)))]
  {
    var ts := [("a_b", x), ("a", y)];
    assert ts[..1] == [("a_b", x)] && ts[..1][..0] == [];
    assert TweetKey(("a_b", x)) == "a_b_c";
    assert TweetKey(("a", y)) == "a_b_c";
    var first := [("a_b_c", Group("a_b", "c", 1, CsvStats.NewsLength(x)))];
    assert Summarize(ts[..1]) == first;
    assert Get(first, "a_b_c") == Some(Group("a_b", "c", 1, CsvStats.NewsLength(x)));
  }

  lemma {:induction false} ItemTweetsCount(category: string, items: seq<Item>)
    ensures |ItemTweets(category, items)| == |CsvStats.ItemSentiments(items)|
  {
    if items != [] {
      ItemTweetsCount(category, items[..|items| - 1]);
    }
  }

  lemma {:induction false} ValidTweetsCount(data: seq<Entry>)
    ensures |ValidTweets(data)| == |CsvStats.ValidSentiments(data)|
  {
    if data != [] {
      ValidTweetsCount(data[..|data| - 1]);
      var e := data[|data| - 1];
      if e.value.Array? {
        ItemTweetsCount(e.category, e.value.items);
      }
    }
  }

  /** The summary's Tweet_Count column adds up to the `totalTweets` that one
      `generateStats` on a new converter reports. */
  lemma SummaryMatchesStats(data: seq<Entry>)
    ensures TotalBy(Summarize(ValidTweets(data)), GroupTweets) == CsvStats.Generated(CsvStats.Fresh, data).totalTweets
  {
    SummaryTweetTotal(ValidTweets(data));
    ValidTweetsCount(data);
    CsvStats.StatsAfterOneCall(data);
  }
}
