/** The results-to-CSV export (convert_to_csv.js): field escaping in the
    manner of section 2 (rules 6 and 7) of RFC 4180, and the rows of the
    standard table built from the results object. */
module CsvExport {
  import opened Wrappers
  import opened JsText

  /** A news article; a missing title or link is "". */
  datatype Article = Article(title: string, link: string)

  /** An item's `news`: an array of articles, or absent / not an array. */
  datatype News = Articles(list: seq<Article>) | NoNews

  /** One result; a missing or falsy tweet or sentiment is "". */
  datatype Item = Item(tweet: string, sentiment: string, news: News)

  /** A category's value: an array of items, or anything else. */
  datatype Items = Array(items: seq<Item>) | NotArray

  /** One key of the results object with its value; the object is the list
      of its entries in enumeration order. */
  datatype Entry = Entry(category: string, value: Items)

  /** Only items with a truthy tweet and a truthy sentiment are exported. */
  predicate Valid(item: Item) {
    item.tweet != "" && item.sentiment != ""
  }

  /** A field needs quoting when it holds a comma, a quote, a CR or an LF. */
  predicate NeedsQuotes(s: string) {
    ',' in s || '"' in s || '\n' in s || '\r' in s
  }

  /** `replace(/"/g, '""')`. */
  function DoubleQuotes(s: string): (r: string)
    ensures |r| >= |s|
  {
    if s == [] then []
    else (if s[0] == '"' then "\"\"" else [s[0]]) + DoubleQuotes(s[1..])
  }

  /** Each `""` read back as one quote. */
  function Collapse(s: string): string {
    if s == [] then []
    else if |s| >= 2 && s[0] == '"' && s[1] == '"' then "\"" + Collapse(s[2..])
    else [s[0]] + Collapse(s[1..])
  }

  /** Quotes occur only in adjacent pairs. */
  predicate Paired(s: string) {
    if s == [] then true
    else if s[0] != '"' then Paired(s[1..])
    else |s| >= 2 && s[1] == '"' && Paired(s[2..])
  }

  lemma {:induction false} CollapseDoubled(s: string)
    ensures Collapse(DoubleQuotes(s)) == s
    ensures Paired(DoubleQuotes(s))
  {
    if s != [] {
      CollapseDoubled(s[1..]);
      var rest := DoubleQuotes(s[1..]);
      if s[0] == '"' {
        assert DoubleQuotes(s) == "\"\"" + rest;
        assert ("\"\"" + rest)[2..] == rest;
      } else {
        assert DoubleQuotes(s) == [s[0]] + rest;
        assert ([s[0]] + rest)[1..] == rest;
      }
      assert s == [s[0]] + s[1..];
    }
  }

  /** Reading a field back: strip the outer quotes of a quoted field and
      collapse its doubled quotes; any other field is taken as it stands. */
  function Unescape(f: string): string {
    if |f| >= 2 && f[0] == '"' && f[|f| - 1] == '"' then Collapse(f[1..|f| - 1]) else f
  }

  /** `escapeCsvField` on a string.  A plain field is kept; any other is
      quoted with its inner quotes doubled, so that reading it back gives the
      original. */
  function EscapeField(s: string): (r: string)
    ensures !NeedsQuotes(s) ==> r == s
    ensures NeedsQuotes(s) ==> |r| >= 2 && r[0] == '"' && r[|r| - 1] == '"' && Paired(r[1..|r| - 1])
    ensures !NeedsQuotes(r) || (r[0] == '"' && r[|r| - 1] == '"')
    ensures Unescape(r) == s
  {
    if NeedsQuotes(s) then
      var inner := DoubleQuotes(s);
      CollapseDoubled(s);
      assert ("\"" + inner + "\"")[1..|inner| + 1] == inner;
      "\"" + inner + "\""
    else
      assert !(|s| >= 2 && s[0] == '"') by {
        if s != [] { assert s[0] in s; }
      }
      s
  }

  /** `escapeCsvField(field)`: `null` and `undefined` give the empty field. */
  function Escape(field: Option<string>): (r: string)
    ensures field.None? ==> r == ""
    ensures field.Some? ==> Unescape(r) == field.value
  {
    match field
    case None => ""
    case Some(s) => EscapeField(s)
  }

  const Header := ["Category", "Tweet", "Sentiment", "News_Title", "News_Link"]

  function NewsRow(category: string, item: Item, a: Article): seq<string> {
    [EscapeField(category), EscapeField(item.tweet), EscapeField(item.sentiment), EscapeField(a.title), EscapeField(a.link)]
  }

  function BareRow(category: string, item: Item): seq<string> {
    [EscapeField(category), EscapeField(item.tweet), EscapeField(item.sentiment), "", ""]
  }

  predicate HasArticles(item: Item) {
    item.news.Articles? && |item.news.list| > 0
  }

  /** The rows of one item: one per article, or one with empty news cells;
      none for an item lacking a tweet or sentiment. */
  function ItemRows(category: string, item: Item): (r: seq<seq<string>>)
    ensures |r| == Weight(item)
  {
    if !Valid(item) then []
    else if HasArticles(item) then
      seq(|item.news.list|, k requires 0 <= k < |item.news.list| => NewsRow(category, item, item.news.list[k]))
    else [BareRow(category, item)]
  }

  /** How many rows an item is worth: max(1, |news|) when valid, else 0. */
  function Weight(item: Item): nat {
    if !Valid(item) then 0 else if HasArticles(item) then |item.news.list| else 1
  }

  /** The rows of each element in turn. */
  function ConcatMap<T>(xs: seq<T>, f: T -> seq<seq<string>>): seq<seq<string>> {
    if xs == [] then [] else ConcatMap(xs[..|xs| - 1], f) + f(xs[|xs| - 1])
  }

  lemma {:induction false} ConcatMapAppend<T>(a: seq<T>, b: seq<T>, f: T -> seq<seq<string>>)
    ensures ConcatMap(a + b, f) == ConcatMap(a, f) + ConcatMap(b, f)
  {
    if b == [] {
      assert a + b == a;
    } else {
      assert (a + b)[..|a + b| - 1] == a + b[..|b| - 1];
      ConcatMapAppend(a, b[..|b| - 1], f);
    }
  }

  lemma ConcatMapSnoc<T>(xs: seq<T>, j: nat, f: T -> seq<seq<string>>)
    requires j < |xs|
    ensures ConcatMap(xs[..j + 1], f) == ConcatMap(xs[..j], f) + f(xs[j])
  {
    assert xs[..j + 1][..j] == xs[..j];
  }

  lemma ConcatMapOne<T>(x: T, f: T -> seq<seq<string>>)
    ensures ConcatMap([x], f) == f(x)
  {
    assert [x][..0] == [];
  }

  function ItemsRows(category: string, items: seq<Item>): seq<seq<string>> {
    ConcatMap(items, (item: Item) => ItemRows(category, item))
  }

  function EntryRows(e: Entry): seq<seq<string>> {
    match e.value
    case Array(items) => ItemsRows(e.category, items)
    case NotArray => []
  }

  /** The data rows, in category order, then item order, then news order. */
  function DataRows(data: seq<Entry>): seq<seq<string>> {
    ConcatMap(data, EntryRows)
  }

  function Rows(data: seq<Entry>): seq<seq<string>> {
    [Header] + DataRows(data)
  }

  /** Each row's fields joined by commas. */
  function Lines(rows: seq<seq<string>>): seq<string> {
    if rows == [] then [] else Lines(rows[..|rows| - 1]) + [Join(rows[|rows| - 1], ",")]
  }

  /** The first line is the first row joined. */
  lemma {:induction false} LinesHead(rows: seq<seq<string>>)
    requires rows != []
    ensures Lines(rows) != [] && Lines(rows)[0] == Join(rows[0], ",")
    decreases |rows|
  {
    if |rows| > 1 {
      LinesHead(rows[..|rows| - 1]);
    }
  }

  /** `convertJsonToCsv`: the header and the data rows, each joined by
      commas, joined by "\n". */
  function ConvertJsonToCsv(data: seq<Entry>): (r: string)
    ensures Join(Header, ",") <= r
  {
    LinesHead(Rows(data));
    Join(Lines(Rows(data)), "\n")
  }

  /** The sum of `w` over the elements. */
  function SumMap<T>(xs: seq<T>, w: T -> nat): nat {
    if xs == [] then 0 else SumMap(xs[..|xs| - 1], w) + w(xs[|xs| - 1])
  }

  lemma {:induction false} ConcatMapCount<T>(xs: seq<T>, f: T -> seq<seq<string>>, w: T -> nat)
    requires forall x :: |f(x)| == w(x)
    ensures |ConcatMap(xs, f)| == SumMap(xs, w)
  {
    if xs != [] {
      ConcatMapCount(xs[..|xs| - 1], f, w);
    }
  }

  function EntryWeight(e: Entry): nat {
    match e.value
    case Array(items) => SumMap(items, Weight)
    case NotArray => 0
  }

  /** Σ over valid items of max(1, |news|). */
  function TotalWeight(data: seq<Entry>): nat {
    SumMap(data, EntryWeight)
  }

  lemma EntryRowCount(e: Entry)
    ensures |EntryRows(e)| == EntryWeight(e)
  {
    if e.value.Array? {
      ConcatMapCount(e.value.items, (item: Item) => ItemRows(e.category, item), Weight);
    }
  }

  /** The row-count law: one header row, plus max(1, |news|) rows per valid
      item. */
  lemma RowCount(data: seq<Entry>)
    ensures |Rows(data)| == 1 + TotalWeight(data)
  {
    forall e ensures |EntryRows(e)| == EntryWeight(e) {
      EntryRowCount(e);
    }
    ConcatMapCount(data, EntryRows, EntryWeight);
  }

  /** The rows of two runs of categories are the rows of the first, then the
      rows of the second. */
  lemma DataRowsAppend(a: seq<Entry>, b: seq<Entry>)
    ensures DataRows(a + b) == DataRows(a) + DataRows(b)
  {
    ConcatMapAppend(a, b, EntryRows);
  }

  /** A category whose value is not an array adds no rows wherever it
      stands. */
  lemma NotArrayAddsNothing(a: seq<Entry>, b: seq<Entry>, category: string)
    ensures DataRows(a + [Entry(category, NotArray)] + b) == DataRows(a + b)
  {
    var x := Entry(category, NotArray);
    ConcatMapAppend(a + [x], b, EntryRows);
    ConcatMapAppend(a, [x], EntryRows);
    ConcatMapAppend(a, b, EntryRows);
    ConcatMapOne(x, EntryRows);
  }

  /** An item lacking a tweet or a sentiment adds no rows wherever it
      stands. */
  lemma InvalidItemAddsNothing(category: string, before: seq<Item>, item: Item, after: seq<Item>)
    requires !Valid(item)
    ensures ItemsRows(category, before + [item] + after) == ItemsRows(category, before + after)
  {
    var f := (x: Item) => ItemRows(category, x);
    ConcatMapAppend(before + [item], after, f);
    ConcatMapAppend(before, [item], f);
    ConcatMapAppend(before, after, f);
    ConcatMapOne(item, f);
  }

  /** Characters from `A` to `z`: the ASCII letters and the six signs
      between the two cases, none of which a field must quote. */
  predicate LetterRange(s: string) {
    forall i | 0 <= i < |s| :: 'A' <= s[i] <= 'z'
  }

  lemma LetterRangeIsPlain(s: string)
    requires LetterRange(s)
    ensures EscapeField(s) == s && NoNewline(s) && '"' !in s
  {
    forall c | c in s
      ensures 'A' <= c <= 'z'
    {
      var i :| 0 <= i < |s| && s[i] == c;
    }
  }

  lemma {:induction false} DoubleQuotesNoQuote(s: string)
    requires '"' !in s
    ensures DoubleQuotes(s) == s
  {
    if s != [] {
      assert s[0] in s;
      assert forall c :: c in s[1..] ==> c in s;
      DoubleQuotesNoQuote(s[1..]);
    }
  }

  /** `Join` on a list of two or more parts. */
  lemma JoinCons(a: string, rest: seq<string>, sep: string)
    requires rest != []
    ensures Join([a] + rest, sep) == a + sep + Join(rest, sep)
  {
    assert ([a] + rest)[1..] == rest;
  }

  lemma {:induction false} JoinNoNewline(parts: seq<string>, sep: string)
    requires forall i | 0 <= i < |parts| :: NoNewline(parts[i])
    requires NoNewline(sep)
    ensures NoNewline(Join(parts, sep))
  {
    if |parts| > 1 {
      JoinNoNewline(parts[1..], sep);
      assert NoNewline(parts[0]);
    }
  }

  lemma HeaderNoNewline()
    ensures NoNewline(Join(Header, ","))
  {
    forall i | 0 <= i < |Header|
      ensures NoNewline(Header[i])
    {
      assert LetterRange(Header[i]);
      LetterRangeIsPlain(Header[i]);
    }
    JoinNoNewline(Header, ",");
  }

  /** A one-item category whose item has no news gives one row. */
  lemma OneBareRow(category: string, item: Item)
    requires Valid(item) && item.news == NoNews
    ensures Rows([Entry(category, Array([item]))]) == [Header, BareRow(category, item)]
  {
    ConcatMapOne(item, (x: Item) => ItemRows(category, x));
    ConcatMapOne(Entry(category, Array([item])), EntryRows);
  }

  /** A row whose news cells are empty, joined by commas. */
  lemma JoinBare(a: string, b: string, c: string)
    ensures Join([a, b, c, "", ""], ",") == a + "," + b + "," + c + ",,"
  {
    JoinCons("", [""], ",");
    assert Join(["", ""], ",") == ",";
    JoinCons(c, ["", ""], ",");
    assert Join([c, "", ""], ",") == c + ",,";
    JoinCons(b, [c, "", ""], ",");
    assert Join([b, c, "", ""], ",") == b + "," + c + ",,";
    JoinCons(a, [b, c, "", ""], ",");
    assert [a, b, c, "", ""] == [a] + [b, c, "", ""];
  }

  lemma Regroup(c: string, b: string, a: string, s: string)
    ensures c + "," + ("\"" + (b + "\n" + a) + "\"") + "," + s + ",,"
         == (c + "," + "\"" + b) + "\n" + (a + "\"" + "," + s + ",,")
  {
  }

  /** A tweet holding a newline is quoted, and the text of its row still
      holds that newline: the data gives the header and that one row. */
  lemma NewlineRowLines(category: string, before: string, after: string, sentiment: string)
    requires LetterRange(category) && LetterRange(before) && LetterRange(after) && LetterRange(sentiment) && sentiment != ""
    ensures var data := [Entry(category, Array([Item(before + "\n" + after, sentiment, NoNews)]))];
      |Rows(data)| == 2 &&
      Lines(Rows(data)) == [Join(Header, ","), (category + "," + "\"" + before) + "\n" + (after + "\"" + "," + sentiment + ",,")]
  {
    var tweet := before + "\n" + after;
    var item := Item(tweet, sentiment, NoNews);
    LetterRangeIsPlain(category);
    LetterRangeIsPlain(before);
    LetterRangeIsPlain(after);
    LetterRangeIsPlain(sentiment);
    assert Valid(item) && tweet[|before|] == '\n';
    DoubleQuotesNoQuote(tweet);
    OneBareRow(category, item);
    var row := BareRow(category, item);
    JoinBare(category, "\"" + tweet + "\"", sentiment);
    Regroup(category, before, after, sentiment);
    LinesAppend([Header], [row]);
    LinesOne(Header);
    LinesOne(row);
  }

  /** Rows are joined by "\n", so a tweet holding a newline splits its row
      over two lines: two rows, three lines. */
  lemma NewlineSplitsRow(category: string, before: string, after: string, sentiment: string)
    requires LetterRange(category) && LetterRange(before) && LetterRange(after) && LetterRange(sentiment) && sentiment != ""
    ensures var data := [Entry(category, Array([Item(before + "\n" + after, sentiment, NoNews)]))];
      |Rows(data)| == 2 && |Split(ConvertJsonToCsv(data))| == 3
  {
    NewlineRowLines(category, before, after, sentiment);
    LetterRangeIsPlain(category);
    LetterRangeIsPlain(before);
    LetterRangeIsPlain(after);
    LetterRangeIsPlain(sentiment);
    var x, y := category + "," + "\"" + before, after + "\"" + "," + sentiment + ",,";
    var h := Join(Header, ",");
    HeaderNoNewline();
    JoinPair(h, x + "\n" + y, "\n");
    SplitAtNewline(h, x + "\n" + y);
    SplitAtNewline(x, y);
    SplitNoNewline(h);
    SplitNoNewline(x);
    SplitNoNewline(y);
  }

  lemma {:induction false} LinesAppend(a: seq<seq<string>>, b: seq<seq<string>>)
    ensures Lines(a + b) == Lines(a) + Lines(b)
  {
    if b == [] {
      assert a + b == a;
    } else {
      assert (a + b)[..|a + b| - 1] == a + b[..|b| - 1];
      LinesAppend(a, b[..|b| - 1]);
    }
  }

  /** Rows appended after a header line extend its lines. */
  lemma LinesAfterHeader(header: seq<string>, a: seq<seq<string>>, b: seq<seq<string>>)
    ensures Lines([header] + (a + b)) == Lines([header] + a) + Lines(b)
  {
    assert [header] + (a + b) == ([header] + a) + b;
    LinesAppend([header] + a, b);
  }

  lemma LinesSnoc(rows: seq<seq<string>>, row: seq<string>)
    ensures Lines(rows + [row]) == Lines(rows) + [Join(row, ",")]
  {
    var s := rows + [row];
    assert s[..|s| - 1] == rows && s[|s| - 1] == row;
  }

  lemma LinesOne(row: seq<string>)
    ensures Lines([row]) == [Join(row, ",")]
  {
    assert [row][..0] == [];
  }

  lemma ItemRowsPrefix(category: string, item: Item, k: nat)
    requires Valid(item) && HasArticles(item) && k < |item.news.list|
    ensures ItemRows(category, item)[..k + 1] == ItemRows(category, item)[..k] + [NewsRow(category, item, item.news.list[k])]
  {
  }

  lemma ItemsRowsSnoc(category: string, items: seq<Item>, j: nat)
    requires j < |items|
    ensures ItemsRows(category, items[..j + 1]) == ItemsRows(category, items[..j]) + ItemRows(category, items[j])
  {
    ConcatMapSnoc(items, j, (x: Item) => ItemRows(category, x));
  }

  /** The rows of one item pushed after `csvRows`. */
  method PushItem(csvRows: seq<string>, category: string, item: Item) returns (out: seq<string>)
    ensures out == csvRows + Lines(ItemRows(category, item))
  {
    out := csvRows;
    if item.tweet != "" && item.sentiment != "" {
      if item.news.Articles? && |item.news.list| > 0 {
        var k := 0;
        while k < |item.news.list|
          invariant 0 <= k <= |item.news.list|
          invariant out == csvRows + Lines(ItemRows(category, item)[..k])
        {
          var row := NewsRow(category, item, item.news.list[k]);
          out := out + [Join(row, ",")];
          assert out == csvRows + Lines(ItemRows(category, item)[..k + 1]) by {
            ItemRowsPrefix(category, item, k);
            LinesAppend(ItemRows(category, item)[..k], [row]);
            LinesOne(row);
          }
          k := k + 1;
        }
        assert ItemRows(category, item)[..k] == ItemRows(category, item);
      } else {
        LinesOne(BareRow(category, item));
        out := out + [Join(BareRow(category, item), ",")];
      }
    }
  }

  lemma PushItemStep(csvRows: seq<string>, category: string, items: seq<Item>, j: nat)
    requires j < |items|
    ensures csvRows + Lines(ItemsRows(category, items[..j])) + Lines(ItemRows(category, items[j]))
         == csvRows + Lines(ItemsRows(category, items[..j + 1]))
  {
    ItemsRowsSnoc(category, items, j);
    LinesAppend(ItemsRows(category, items[..j]), ItemRows(category, items[j]));
  }

  /** The rows of one category pushed after `csvRows`. */
  method PushEntry(csvRows: seq<string>, e: Entry) returns (out: seq<string>)
    ensures out == csvRows + Lines(EntryRows(e))
  {
    out := csvRows;
    if e.value.Array? {
      var items := e.value.items;
      var j := 0;
      assert items[..0] == [];
      while j < |items|
        invariant 0 <= j <= |items|
        invariant out == csvRows + Lines(ItemsRows(e.category, items[..j]))
      {
        out := PushItem(out, e.category, items[j]);
        PushItemStep(csvRows, e.category, items, j);
        j := j + 1;
      }
      assert items[..j] == items;
    }
  }

  lemma PushEntryStep(data: seq<Entry>, i: nat)
    requires i < |data|
    ensures Lines([Header] + DataRows(data[..i])) + Lines(EntryRows(data[i]))
         == Lines([Header] + DataRows(data[..i + 1]))
  {
    ConcatMapSnoc(data, i, EntryRows);
    LinesAppend([Header] + DataRows(data[..i]), EntryRows(data[i]));
    assert [Header] + DataRows(data[..i + 1]) == ([Header] + DataRows(data[..i])) + EntryRows(data[i]);
  }

  /** `convertJsonToCsv` as written: the header line, then the lines of
      each category in turn, joined by "\n". */
  method Convert(data: seq<Entry>) returns (csv: string)
    ensures csv == ConvertJsonToCsv(data)
  {
    var csvRows := [Join(Header, ",")];
    LinesOne(Header);
    assert data[..0] == [];
    var i := 0;
    while i < |data|
      invariant 0 <= i <= |data|
      invariant csvRows == Lines([Header] + DataRows(data[..i]))
    {
      csvRows := PushEntry(csvRows, data[i]);
      PushEntryStep(data, i);
      i := i + 1;
    }
    assert data[..i] == data;
    csv := Join(csvRows, "\n");
  }
}
