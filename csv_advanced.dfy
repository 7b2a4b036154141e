/** `AdvancedJsonToCsvConverter` (convert_to_csv_advanced.js): a converter
    holding a results object and a statistics object that `generateStats`
    accumulates into, with three CSV layouts and a text report. */
module CsvAdvanced {
  import opened JsText
  import opened JsObject
  import opened CsvExport
  import opened CsvStats
  import opened CsvViews

  /** `  ${category}: ${count} tweets` */
  function CategoryText(category: string, count: nat): string {
    "  " + category + ": " + NatToString(count) + " tweets"
  }

  function CategoryLine(category: string, count: nat): string {
    CategoryText(category, count) + "\n"
  }

  /** `  ${sentiment}: ${count} (${percentage}%)` */
  function SentimentLine(sentiment: string, count: nat, percentage: string): string {
    "  " + sentiment + ": " + NatToString(count) + " (" + percentage + "%)\n"
  }

  function CategoryLines(d: Obj<nat>): string {
    if d == [] then "" else CategoryLines(d[..|d| - 1]) + CategoryLine(d[|d| - 1].0, d[|d| - 1].1)
  }

  function SentimentLines(d: Obj<nat>, total: nat, percent: (nat, nat) -> string): string {
    if d == [] then ""
    else
      var last := d[|d| - 1];
      SentimentLines(d[..|d| - 1], total, percent) + SentimentLine(last.0, last.1, percent(last.1, total))
  }

  /** The report text for statistics `s`: the totals, one line per
      category with its array length, and one line per sentiment with its
      count and its share of `totalTweets`. */
  function Report(s: Stats, percent: (nat, nat) -> string): string {
    "=== JSON TO CSV CONVERSION REPORT ===\n\n"
      + "Total Categories: " + NatToString(s.totalCategories) + "\n"
      + "Total Tweets: " + NatToString(s.totalTweets) + "\n"
      + "Total News Articles: " + NatToString(s.totalNewsArticles) + "\n\n"
      + "Categories:\n" + CategoryLines(s.categoryDistribution)
      + "\nSentiment Distribution:\n" + SentimentLines(s.sentimentDistribution, s.totalTweets, percent)
  }

  /** The category lines, one per entry of the distribution. */
  function CategoryTexts(d: Obj<nat>): (r: seq<string>)
    ensures |r| == |d| && forall i :: 0 <= i < |d| ==> r[i] == CategoryText(d[i].0, d[i].1)
  {
    seq(|d|, i requires 0 <= i < |d| => CategoryText(d[i].0, d[i].1))
  }

  lemma CategoryTextsSnoc(d: Obj<nat>)
    requires d != []
    ensures CategoryTexts(d) == CategoryTexts(d[..|d| - 1]) + [CategoryText(d[|d| - 1].0, d[|d| - 1].1)]
  {
  }

  lemma {:induction false} CategoryLinesTerminated(d: Obj<nat>)
    ensures CategoryLines(d) == Terminated(CategoryTexts(d))
  {
    if d != [] {
      var init, last := d[..|d| - 1], d[|d| - 1];
      CategoryLinesTerminated(init);
      var texts := CategoryTexts(init);
      var text := CategoryText(last.0, last.1);
      CategoryTextsSnoc(d);
      TerminatedAppend(texts, [text]);
      TerminatedOne(text);
    }
  }

  lemma DigitsNoNewline(s: string)
    requires AllDigits(s)
    ensures NoNewline(s)
  {
    forall c | c in s
      ensures c != '\n'
    {
      var i :| 0 <= i < |s| && s[i] == c;
      assert IsDigit(s[i]);
    }
  }

  lemma CategoryTextNoNewline(category: string, count: nat)
    requires NoNewline(category)
    ensures NoNewline(CategoryText(category, count))
  {
    DigitsNoNewline(NatToString(count));
  }

  /** When no category name holds a newline, the "Categories:" block is
      exactly one line per category, in `categoryDistribution` order, each
      naming the category and its count. */
  lemma CategoryBlockLines(d: Obj<nat>)
    requires forall i :: 0 <= i < |d| ==> NoNewline(d[i].0)
    ensures var lines := Split(CategoryLines(d));
      |lines| == |d| + 1 && lines[|d|] == "" &&
      forall i :: 0 <= i < |d| ==> lines[i] == CategoryText(d[i].0, d[i].1)
  {
    var texts := CategoryTexts(d);
    forall i | 0 <= i < |texts|
      ensures NoNewline(texts[i])
    {
      CategoryTextNoNewline(d[i].0, d[i].1);
    }
    SplitTerminated(texts);
    CategoryLinesTerminated(d);
  }

  lemma ReportStep(head: string, lines: string, line: string)
    ensures (head + lines) + line == head + (lines + line)
  {
  }

  lemma CategoryLinesSnoc(d: Obj<nat>, k: nat)
    requires k < |d|
    ensures CategoryLines(d[..k + 1]) == CategoryLines(d[..k]) + CategoryLine(d[k].0, d[k].1)
  {
    assert d[..k + 1][..k] == d[..k];
  }

  lemma SentimentLinesSnoc(d: Obj<nat>, total: nat, percent: (nat, nat) -> string, k: nat)
    requires k < |d|
    ensures SentimentLines(d[..k + 1], total, percent) == SentimentLines(d[..k], total, percent) + SentimentLine(d[k].0, d[k].1, percent(d[k].1, total))
  {
    assert d[..k + 1][..k] == d[..k];
  }

  class Converter {
    var jsonData: seq<Entry>
    var stats: Stats

    /** A converter over `data` with all statistics at zero. */
    constructor(data: seq<Entry>)
      ensures jsonData == data && stats == Fresh
    {
      jsonData := data;
      stats := Fresh;
    }

    /** `generateStats`: counts the results into the statistics it already
        holds, and returns them. */
    method GenerateStats() returns (r: Stats)
      modifies this
      ensures jsonData == old(jsonData)
      ensures stats == Generated(old(stats), jsonData) && r == stats
    {
      stats := stats.(totalCategories := |jsonData|);
      ghost var start := stats;
      var i := 0;
      while i < |jsonData|
        invariant 0 <= i <= |jsonData| && jsonData == old(jsonData)
        invariant stats == CountData(start, jsonData[..i])
      {
        CountCategory(jsonData[i]);
        CountDataSnoc(start, jsonData, i);
        i := i + 1;
      }
      assert jsonData[..i] == jsonData;
      r := stats;
    }

    /** One category of `generateStats`: an array's length is recorded under
        its name, then each valid item counts as a tweet, tallies its
        sentiment and adds its articles. */
    method CountCategory(e: Entry)
      modifies this
      ensures jsonData == old(jsonData)
      ensures stats == CountEntry(old(stats), e)
    {
      if e.value.Array? {
        var items := e.value.items;
        stats := stats.(categoryDistribution := Set<nat>(stats.categoryDistribution, e.category, |items|));
        ghost var before := stats;
        var j := 0;
        assert items[..0] == [];
        while j < |items|
          invariant 0 <= j <= |items| && jsonData == old(jsonData)
          invariant stats == CountItems(before, items[..j])
        {
          var item := items[j];
          ghost var prev := stats;
          if item.tweet != "" && item.sentiment != "" {
            CountValidItem(prev, item);
            stats := stats.(totalTweets := stats.totalTweets + 1);
            var sentiment := item.sentiment;
            stats := stats.(sentimentDistribution := Tally(stats.sentimentDistribution, sentiment));
            if item.news.Articles? {
              stats := stats.(totalNewsArticles := stats.totalNewsArticles + |item.news.list|);
            }
          }
          CountItemsSnoc(before, items, j);
          j := j + 1;
        }
        assert items[..j] == items;
      }
    }

    /** `generateReport`: runs `generateStats` (so the counts accumulate
        across calls) and writes them as text; `percent(count, total)`
        stands for `((count / total) * 100).toFixed(1)`. */
    method GenerateReport(percent: (nat, nat) -> string) returns (report: string)
      modifies this
      ensures jsonData == old(jsonData)
      ensures stats == Generated(old(stats), jsonData)
      ensures report == Report(stats, percent)
    {
      var s := GenerateStats();
      report := "=== JSON TO CSV CONVERSION REPORT ===\n\n";
      report := report + "Total Categories: " + NatToString(s.totalCategories) + "\n";
      report := report + "Total Tweets: " + NatToString(s.totalTweets) + "\n";
      report := report + "Total News Articles: " + NatToString(s.totalNewsArticles) + "\n\n";
      report := report + "Categories:\n";
      ghost var head := report;
      var categories := s.categoryDistribution;
      var k := 0;
      assert categories[..0] == [];
      while k < |categories|
        invariant 0 <= k <= |categories|
        invariant report == head + CategoryLines(categories[..k])
        invariant stats == s && jsonData == old(jsonData)
      {
        ReportStep(head, CategoryLines(categories[..k]), CategoryLine(categories[k].0, categories[k].1));
        CategoryLinesSnoc(categories, k);
        report := report + CategoryLine(categories[k].0, categories[k].1);
        k := k + 1;
      }
      assert categories[..k] == categories;
      report := report + "\nSentiment Distribution:\n";
      head := report;
      var sentiments := s.sentimentDistribution;
      k := 0;
      assert sentiments[..0] == [];
      while k < |sentiments|
        invariant 0 <= k <= |sentiments|
        invariant report == head + SentimentLines(sentiments[..k], s.totalTweets, percent)
        invariant stats == s && jsonData == old(jsonData)
      {
        var line := SentimentLine(sentiments[k].0, sentiments[k].1, percent(sentiments[k].1, s.totalTweets));
        ReportStep(head, SentimentLines(sentiments[..k], s.totalTweets, percent), line);
        SentimentLinesSnoc(sentiments, s.totalTweets, percent, k);
        report := report + line;
        k := k + 1;
      }
      assert sentiments[..k] == sentiments;
    }

    /** `toStandardCsv`: the same text as `convertJsonToCsv`. */
    method ToStandardCsv() returns (csv: string)
      ensures csv == ConvertJsonToCsv(jsonData)
    {
      csv := Convert(jsonData);
    }
  
    /** `toFlattenedCsv`: one row per valid item and article, numbered by a
        running tweet counter across categories. */
    method ToFlattenedCsv() returns (csv: string)
      ensures csv == FlattenedCsv(jsonData)
    {
      var csvRows := [Join(FlatHeader, ",")];
      var tweetIndex := 0;
      ghost var done: seq<Tweet> := [];
      var i := 0;
      assert jsonData[..0] == [];
      while i < |jsonData|
        invariant 0 <= i <= |jsonData|
        invariant done == ValidTweets(jsonData[..i])
        invariant csvRows == FlatLines(done) && tweetIndex == |done|
      {
        csvRows, tweetIndex := PushFlatCategory(csvRows, tweetIndex, jsonData[i], done);
        ValidTweetsSnoc(jsonData, i);
        done := done + EntryTweets(jsonData[i]);
        i := i + 1;
      }
      assert jsonData[..i] == jsonData;
      FlatLinesTable(done);
      csv := Join(csvRows, "\n");
    }

    /** `toSummaryCsv`: one row per `${category}_${sentiment}` key, with the
        number of valid items and of their articles. */
    method ToSummaryCsv() returns (csv: string)
      ensures csv == SummaryCsv(jsonData)
    {
      var summary: Obj<Group> := [];
      ghost var done: seq<Tweet> := [];
      var i := 0;
      assert jsonData[..0] == [];
      while i < |jsonData|
        invariant 0 <= i <= |jsonData|
        invariant done == ValidTweets(jsonData[..i]) && summary == Summarize(done)
      {
        summary := SummarizeCategory(summary, jsonData[i], done);
        ValidTweetsSnoc(jsonData, i);
        done := done + EntryTweets(jsonData[i]);
        i := i + 1;
      }
      assert jsonData[..i] == jsonData;
      var csvRows := [Join(SummaryHeader, ",")];
      var k := 0;
      assert summary[..0] == [];
      while k < |summary|
        invariant 0 <= k <= |summary|
        invariant csvRows == SummaryLines(summary[..k])
      {
        var g := summary[k].1;
        var row := [EscapeField(g.category), EscapeField(g.sentiment), NatToString(g.tweetCount), NatToString(g.newsCount)];
        SummaryLinesSnoc(summary, k);
        csvRows := csvRows + [Join(row, ",")];
        k := k + 1;
      }
      assert summary[..k] == summary;
      SummaryLinesTable(summary);
      csv := Join(csvRows, "\n");
    }
  }

  /** One category of `toSummaryCsv`, after the valid items `done` before
      it. */
  method SummarizeCategory(summary: Obj<Group>, e: Entry, ghost done: seq<Tweet>) returns (out: Obj<Group>)
    requires summary == Summarize(done)
    ensures out == Summarize(done + EntryTweets(e))
  {
    out := summary;
    if e.value.Array? {
      var items := e.value.items;
      ghost var seen := done;
      var j := 0;
      assert items[..0] == [];
      while j < |items|
        invariant 0 <= j <= |items|
        invariant seen == done + ItemTweets(e.category, items[..j]) && out == Summarize(seen)
      {
        SeenStep(done, e.category, items, j, seen);
        out, seen := SummarizeItem(out, e.category, items[j], seen);
        j := j + 1;
      }
      assert items[..j] == items;
    } else {
      assert done + EntryTweets(e) == done;
    }
  }

  /** One item of `toSummaryCsv`: a valid item's key gets an entry with
      zero counts if it has none, then that entry counts the tweet and its
      articles. */
  method SummarizeItem(summary: Obj<Group>, category: string, item: Item, ghost seen: seq<Tweet>)
    returns (out: Obj<Group>, ghost seen': seq<Tweet>)
    requires summary == Summarize(seen)
    ensures seen' == seen + (if Valid(item) then [(category, item)] else [])
    ensures out == Summarize(seen')
  {
    if item.tweet != "" && item.sentiment != "" {
      var sentiment := item.sentiment;
      var key := category + "_" + sentiment;
      out := summary;
      if Get(out, key).None? {
        out := Set(out, key, Group(category, sentiment, 0, 0));
      }
      AddTweetInPlace(summary, (category, item));
      var g := Get(out, key).value;
      ghost var current := g;
      g := g.(tweetCount := g.tweetCount + 1);
      if item.news.Articles? {
        g := g.(newsCount := g.newsCount + |item.news.list|);
      }
      BumpCounts(current, item, g);
      out := Set(out, key, g);
      seen' := seen + [(category, item)];
      SummarizeSnoc(seen, (category, item));
    } else {
      out, seen' := summary, seen;
    }
  }

  /** The flattened rows of one category, after those of the valid items
      `done` before it. */
  method PushFlatCategory(csvRows: seq<string>, tweetIndex: nat, e: Entry, ghost done: seq<Tweet>) returns (out: seq<string>, index: nat)
    requires csvRows == FlatLines(done) && tweetIndex == |done|
    ensures out == FlatLines(done + EntryTweets(e)) && index == |done + EntryTweets(e)|
  {
    out, index := csvRows, tweetIndex;
    if e.value.Array? {
      var items := e.value.items;
      ghost var seen := done;
      var j := 0;
      assert items[..0] == [];
      while j < |items|
        invariant 0 <= j <= |items|
        invariant seen == done + ItemTweets(e.category, items[..j])
        invariant out == FlatLines(seen) && index == |seen|
      {
        SeenStep(done, e.category, items, j, seen);
        out, index, seen := PushValidItem(out, index, e.category, items[j], seen);
        j := j + 1;
      }
      assert items[..j] == items;
    } else {
      assert done + EntryTweets(e) == done;
    }
  }

  /** One item of `toFlattenedCsv`: a valid item takes the next tweet
      index and pushes its rows; any other item is skipped. */
  method PushValidItem(csvRows: seq<string>, index: nat, category: string, item: Item, ghost seen: seq<Tweet>)
    returns (out: seq<string>, next: nat, ghost seen': seq<Tweet>)
    requires csvRows == FlatLines(seen) && index == |seen|
    ensures seen' == seen + (if Valid(item) then [(category, item)] else [])
    ensures out == FlatLines(seen') && next == |seen'|
  {
    if item.tweet != "" && item.sentiment != "" {
      FlatPushStep(seen, category, item, csvRows);
      next := index + 1;
      out := PushFlatItem(csvRows, category, next, item);
      seen' := seen + [(category, item)];
    } else {
      out, next, seen' := csvRows, index, seen;
    }
  }

  /** The flattened rows of the `n`-th valid item: one per article with its
      1-based number, or one with number 0. */
  method PushFlatItem(csvRows: seq<string>, category: string, n: nat, item: Item) returns (out: seq<string>)
    ensures out == csvRows + Lines(FlatRows(category, n, item))
  {
    out := csvRows;
    if item.news.Articles? && |item.news.list| > 0 {
      var list := item.news.list;
      var k := 0;
      assert list[..0] == [];
      while k < |list|
        invariant 0 <= k <= |list|
        invariant out == csvRows + Lines(ArticleRows(category, n, item, list[..k]))
      {
        ArticlePushStep(csvRows, category, n, item, list, k, out);
        out := out + [Join(ArticleRow(category, n, item, k + 1, list[k]), ",")];
        k := k + 1;
      }
      assert list[..k] == list;
    } else {
      var row := FlatRow(category, n, item, 0, "", "");
      LinesOne(row);
      out := out + [Join(row, ",")];
    }
  }
}
