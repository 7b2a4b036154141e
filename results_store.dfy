/** The analysis results written by src/app.js (`appendResultsToFile`,
    `appendResultsToJson`) and src/services/fileService.js (`writeResults`):
    a markdown log appended per batch and a JSON document that groups
    entries by topic.  The JSON document is a map from topic to entries;
    reading it yields `None` when the file is missing, empty or not
    parsable, and the writers then start from an empty object. */
module ResultsStore {
  import opened Wrappers
  import opened JsText
  import G = Gemini

  /** One analysed tweet.  `news` is `None` when the value in the news slot
      is not an array (it has neither `length` nor `map`). */
  datatype ResultRow = ResultRow(tweet: string, sentiment: string, topic: string, news: Option<seq<G.Article>>)

  /** What the JSON document stores per tweet. */
  datatype JsonEntry = JsonEntry(tweet: string, sentiment: string, news: seq<G.Article>)

  /** The JSON document: each topic's list of entries. Only own keys are
      modelled: topics naming `Object.prototype` properties are not. */
  type Store = map<string, seq<JsonEntry>>

  // ------------------------------------------------------------- markdown

  /** `s.replace(/\n/g, ' ')`. */
  function ReplaceNewlines(s: string): (r: string)
    ensures |r| == |s| && NoNewline(r)
    ensures forall i :: 0 <= i < |s| ==> r[i] == if s[i] == '\n' then ' ' else s[i]
  {
    if s == [] then [] else [if s[0] == '\n' then ' ' else s[0]] + ReplaceNewlines(s[1..])
  }

  /** The line that records one result. */
  function TweetLine(r: ResultRow): string {
    "- **Tweet**: " + ReplaceNewlines(r.tweet) + " - **Sentiment**: " + r.sentiment + " - **Topic**: " + r.topic
  }

  function NewsLines(news: seq<G.Article>): string {
    if news == [] then "" else "  - [" + news[0].title + "](" + news[0].link + ")\n" + NewsLines(news[1..])
  }

  /** The block for one result: its line, the related news when there is a
      non-empty list of them, and an empty line. */
  function ResultBlock(r: ResultRow): string {
    TweetLine(r) + "\n" +
    (if r.news.Some? && |r.news.value| > 0 then "  **Related News**:\n" + NewsLines(r.news.value) else "") +
    "\n"
  }

  function Blocks(rows: seq<ResultRow>): (r: string)
    ensures rows != [] ==> r != [] && r[|r| - 1] == '\n'
  {
    if rows == [] then "" else ResultBlock(rows[0]) + Blocks(rows[1..])
  }

  /** The text appended to the markdown log for one batch. */
  function ResultsMarkdown(now: string, rows: seq<ResultRow>): (r: string)
    ensures "\n## Results at " + now + "\n\n" <= r
    ensures rows != [] ==> r[|r| - 1] == '\n'
  {
    "\n## Results at " + now + "\n\n" + Blocks(rows)
  }

  /** The result line is one line whatever the tweet holds, as long as the
      labels themselves hold no line break. */
  lemma TweetLineIsOneLine(r: ResultRow)
    requires NoNewline(r.sentiment) && NoNewline(r.topic)
    ensures Split(TweetLine(r)) == [TweetLine(r)]
  {
    var a := "- **Tweet**: " + ReplaceNewlines(r.tweet);
    NoNewlineAppend("- **Tweet**: ", ReplaceNewlines(r.tweet));
    NoNewlineAppend(a, " - **Sentiment**: ");
    NoNewlineAppend(a + " - **Sentiment**: ", r.sentiment);
    NoNewlineAppend(a + " - **Sentiment**: " + r.sentiment, " - **Topic**: ");
    NoNewlineAppend(a + " - **Sentiment**: " + r.sentiment + " - **Topic**: ", r.topic);
    SplitNoNewline(TweetLine(r));
  }

  lemma NoNewlineAppend(a: string, b: string)
    requires NoNewline(a) && NoNewline(b)
    ensures NoNewline(a + b)
  {
  }

  /** The markdown of two batches written one after the other is the
      markdown of each, in order: the log is append-only. */
  lemma TextAssoc(x: string, y: string, z: string)
    ensures x + (y + z) == (x + y) + z
  {
  }

  lemma {:induction false} BlocksAppend(a: seq<ResultRow>, b: seq<ResultRow>)
    ensures Blocks(a + b) == Blocks(a) + Blocks(b)
  {
    if a == [] {
      assert a + b == b;
    } else {
      var h := ResultBlock(a[0]);
      assert (a + b)[0] == a[0] && (a + b)[1..] == a[1..] + b;
      assert Blocks(a + b) == h + Blocks(a[1..] + b);
      BlocksAppend(a[1..], b);
      assert Blocks(a) == h + Blocks(a[1..]);
      TextAssoc(h, Blocks(a[1..]), Blocks(b));
    }
  }

  lemma BlocksSnoc(rows: seq<ResultRow>, i: nat)
    requires i < |rows|
    ensures Blocks(rows[..i + 1]) == Blocks(rows[..i]) + ResultBlock(rows[i])
  {
    assert rows[..i + 1] == rows[..i] + [rows[i]];
    BlocksAppend(rows[..i], [rows[i]]);
    assert Blocks([rows[i]]) == ResultBlock(rows[i]) + Blocks([]);
  }

  // ----------------------------------------------------------------- JSON

  /** The rows carry news lists: neither writer throws on them. */
  predicate AllListed(rows: seq<ResultRow>) {
    forall i :: 0 <= i < |rows| ==> rows[i].news.Some?
  }

  /** The stored form of a row: `{ tweet, sentiment, news: [{title, link}] }`. */
  function EntryOf(r: ResultRow): JsonEntry
    requires r.news.Some?
  {
    JsonEntry(r.tweet, r.sentiment, r.news.value)
  }

  /** The entries of the rows on topic `t`, in row order. */
  function EntriesFor(rows: seq<ResultRow>, t: string): (es: seq<JsonEntry>)
    requires AllListed(rows)
    ensures |es| <= |rows|
  {
    if rows == [] then []
    else
      var last := rows[|rows| - 1];
      EntriesFor(rows[..|rows| - 1], t) + (if last.topic == t then [EntryOf(last)] else [])
  }

  function TopicsOf(rows: seq<ResultRow>): (ts: set<string>)
    ensures forall i :: 0 <= i < |rows| ==> rows[i].topic in ts
  {
    if rows == [] then {} else TopicsOf(rows[..|rows| - 1]) + {rows[|rows| - 1].topic}
  }

  lemma {:induction false} TopicsOfAppend(a: seq<ResultRow>, b: seq<ResultRow>)
    ensures TopicsOf(a + b) == TopicsOf(a) + TopicsOf(b)
    decreases |b|
  {
    if b == [] {
      assert a + b == a;
    } else {
      assert (a + b)[..|a + b| - 1] == a + b[..|b| - 1];
      TopicsOfAppend(a, b[..|b| - 1]);
    }
  }

  function Existing(store: Store, t: string): seq<JsonEntry> {
    if t in store then store[t] else []
  }

  /** The document after a batch: every topic keeps its entries, and the
      batch's entries on that topic follow in batch order. */
  function Merged(store: Store, rows: seq<ResultRow>): (m: Store)
    requires AllListed(rows)
    ensures m.Keys == store.Keys + TopicsOf(rows)
    ensures forall t :: t in m ==> |m[t]| <= |Existing(store, t)| + |rows|
  {
    map t | t in store.Keys + TopicsOf(rows) :: Existing(store, t) + EntriesFor(rows, t)
  }

  /** Every row's entry is filed under its topic. */
  lemma {:induction false} EntriesForHas(rows: seq<ResultRow>, i: nat)
    requires AllListed(rows) && i < |rows|
    ensures EntryOf(rows[i]) in EntriesFor(rows, rows[i].topic)
    decreases |rows|
  {
    if i < |rows| - 1 {
      assert rows[..|rows| - 1][i] == rows[i];
      EntriesForHas(rows[..|rows| - 1], i);
    }
  }

  lemma {:induction false} EntriesForAbsent(rows: seq<ResultRow>, t: string)
    requires AllListed(rows) && t !in TopicsOf(rows)
    ensures EntriesFor(rows, t) == []
  {
    if rows != [] {
      EntriesForAbsent(rows[..|rows| - 1], t);
    }
  }

  lemma {:induction false} EntriesForAppend(a: seq<ResultRow>, b: seq<ResultRow>, t: string)
    requires AllListed(a) && AllListed(b)
    ensures AllListed(a + b)
    ensures EntriesFor(a + b, t) == EntriesFor(a, t) + EntriesFor(b, t)
    decreases |b|
  {
    if b == [] {
      assert a + b == a;
    } else {
      assert (a + b)[..|a + b| - 1] == a + b[..|b| - 1];
      EntriesForAppend(a, b[..|b| - 1], t);
    }
  }

  /** Existing entries are never lost or reordered: each topic's old list is
      a prefix of its new one. */
  lemma MergedKeeps(store: Store, rows: seq<ResultRow>, t: string)
    requires AllListed(rows) && t in store
    ensures t in Merged(store, rows) && store[t] <= Merged(store, rows)[t]
  {
  }

  /** Topics the batch does not mention are unchanged, and no topic appears
      that is neither stored nor in the batch. */
  lemma MergedUntouched(store: Store, rows: seq<ResultRow>, t: string)
    requires AllListed(rows) && t !in TopicsOf(rows)
    ensures t in Merged(store, rows) <==> t in store
    ensures t in store ==> Merged(store, rows)[t] == store[t]
  {
    EntriesForAbsent(rows, t);
  }

  /** An empty batch leaves the document as it is. */
  lemma MergedNothing(store: Store)
    ensures Merged(store, []) == store
  {
    var m := Merged(store, []);
    assert m.Keys == store.Keys;
    forall t | t in m ensures m[t] == store[t] {
      assert m[t] == store[t] + [];
    }
  }

  /** Writing two batches one after the other is writing their
      concatenation. */
  lemma MergedCompose(store: Store, a: seq<ResultRow>, b: seq<ResultRow>)
    requires AllListed(a) && AllListed(b)
    ensures AllListed(a + b)
    ensures Merged(Merged(store, a), b) == Merged(store, a + b)
  {
    EntriesForAppend(a, b, "");
    var lhs := Merged(Merged(store, a), b);
    var rhs := Merged(store, a + b);
    TopicsOfAppend(a, b);
    assert lhs.Keys == rhs.Keys;
    forall t | t in rhs ensures lhs[t] == rhs[t] {
      ComposeAt(store, a, b, t);
    }
  }

  /** `MergedCompose` on one topic. */
  lemma ComposeAt(store: Store, a: seq<ResultRow>, b: seq<ResultRow>, t: string)
    requires AllListed(a) && AllListed(b) && AllListed(a + b)
    requires t in Merged(Merged(store, a), b) && t in Merged(store, a + b)
    ensures Merged(Merged(store, a), b)[t] == Merged(store, a + b)[t]
  {
    var s0, ea, eb := Existing(store, t), EntriesFor(a, t), EntriesFor(b, t);
    ComposeLeft(store, a, b, t);
    ComposeRight(store, a, b, t);
    EntriesAssoc(s0, ea, eb);
  }

  lemma EntriesAssoc(x: seq<JsonEntry>, y: seq<JsonEntry>, z: seq<JsonEntry>)
    ensures (x + y) + z == x + (y + z)
  {
  }

  lemma ComposeLeft(store: Store, a: seq<ResultRow>, b: seq<ResultRow>, t: string)
    requires AllListed(a) && AllListed(b) && t in Merged(Merged(store, a), b)
    ensures Merged(Merged(store, a), b)[t] == (Existing(store, t) + EntriesFor(a, t)) + EntriesFor(b, t)
  {
    MergedAt(Merged(store, a), b, t);
    MergedAt(store, a, t);
  }

  lemma ComposeRight(store: Store, a: seq<ResultRow>, b: seq<ResultRow>, t: string)
    requires AllListed(a) && AllListed(b) && AllListed(a + b) && t in Merged(store, a + b)
    ensures Merged(store, a + b)[t] == Existing(store, t) + (EntriesFor(a, t) + EntriesFor(b, t))
  {
    EntriesForAppend(a, b, t);
  }

  /** A topic's list after a batch: what was stored, then the batch's entries. */
  lemma MergedAt(store: Store, rows: seq<ResultRow>, t: string)
    requires AllListed(rows)
    ensures Existing(Merged(store, rows), t) == Existing(store, t) + EntriesFor(rows, t)
  {
    if t !in store.Keys + TopicsOf(rows) {
      EntriesForAbsent(rows, t);
    }
  }

  /** One row pushed onto the document. */
  lemma MergedSnoc(store: Store, rows: seq<ResultRow>, r: ResultRow)
    requires AllListed(rows) && r.news.Some?
    ensures AllListed(rows + [r])
    ensures Merged(store, rows + [r]) ==
            Merged(store, rows)[r.topic := Existing(Merged(store, rows), r.topic) + [EntryOf(r)]]
  {
    var rs := rows + [r];
    assert rs[..|rs| - 1] == rows;
    var lhs := Merged(store, rs);
    var rhs := Merged(store, rows)[r.topic := Existing(Merged(store, rows), r.topic) + [EntryOf(r)]];
    assert lhs.Keys == rhs.Keys;
    forall t | t in lhs ensures lhs[t] == rhs[t] {
      SnocAt(store, rows, r, t);
    }
  }

  /** `MergedSnoc` on a prefix of a batch. */
  lemma MergedPrefix(store: Store, rows: seq<ResultRow>, i: nat)
    requires i < |rows| && AllListed(rows[..i]) && rows[i].news.Some?
    ensures AllListed(rows[..i + 1])
    ensures Merged(store, rows[..i + 1]) ==
            Merged(store, rows[..i])[rows[i].topic := Existing(Merged(store, rows[..i]), rows[i].topic) + [EntryOf(rows[i])]]
  {
    assert rows[..i + 1] == rows[..i] + [rows[i]];
    MergedSnoc(store, rows[..i], rows[i]);
  }

  lemma SnocAt(store: Store, rows: seq<ResultRow>, r: ResultRow, t: string)
    requires AllListed(rows) && r.news.Some? && AllListed(rows + [r])
    ensures Existing(store, t) + EntriesFor(rows + [r], t) ==
            if t == r.topic then Existing(Merged(store, rows), t) + [EntryOf(r)] else Existing(Merged(store, rows), t)
  {
    var rs := rows + [r];
    assert rs[..|rs| - 1] == rows;
    if t !in Merged(store, rows) {
      EntriesForAbsent(rows, t);
    }
  }

  /** `appendResultsToJson` (src/app.js): push each row onto its topic's
      list.  A row whose news slot is not an array makes `news.map` throw;
      the error is swallowed and the file is left as it was (`None`). */
  method AppendResultsToJson(data: Store, rows: seq<ResultRow>) returns (r: Option<Store>)
    ensures AllListed(rows) ==> r == Some(Merged(data, rows))
    ensures !AllListed(rows) ==> r.None?
  {
    var d := data;
    var i := 0;
    MergedNothing(data);
    while i < |rows|
      invariant 0 <= i <= |rows| && AllListed(rows[..i])
      invariant d == Merged(data, rows[..i])
    {
      var row := rows[i];
      if row.news.None? {
        return None;
      }
      MergedPrefix(data, rows, i);
      d := d[row.topic := Existing(d, row.topic) + [EntryOf(row)]];
      i := i + 1;
    }
    assert rows[..i] == rows;
    return Some(d);
  }

  /** The markdown log and the JSON document (`None`: missing, empty or
      unparsable). */
  datatype ResultFiles = ResultFiles(markdown: string, json: Option<Store>)

  /** The document after merging the groups of topics `done`. */
  function Partial(store: Store, groups: Store, done: set<string>): Store
    requires done <= groups.Keys
  {
    map t | t in store.Keys + done :: Existing(store, t) + (if t in done then groups[t] else [])
  }

  lemma PartialNone(store: Store, groups: Store)
    ensures Partial(store, groups, {}) == store
  {
    var m := Partial(store, groups, {});
    assert m.Keys == store.Keys;
    forall t | t in m ensures m[t] == store[t] {
      assert m[t] == store[t] + [];
    }
  }

  lemma PartialStep(store: Store, groups: Store, done: set<string>, t: string)
    requires done <= groups.Keys && t in groups && t !in done
    ensures Partial(store, groups, done + {t}) ==
            Partial(store, groups, done)[t := Existing(Partial(store, groups, done), t) + groups[t]]
  {
    var lhs := Partial(store, groups, done + {t});
    var rhs := Partial(store, groups, done)[t := Existing(Partial(store, groups, done), t) + groups[t]];
    assert lhs.Keys == rhs.Keys;
    forall u | u in lhs ensures lhs[u] == rhs[u] {
      if u == t {
        assert Existing(Partial(store, groups, done), t) == Existing(store, t) by {
          if t in store { assert t in Partial(store, groups, done); }
        }
      }
    }
  }

  /** Merging the per-topic groups of a batch is merging the batch. */
  lemma PartialAll(store: Store, rows: seq<ResultRow>)
    requires AllListed(rows)
    ensures Partial(store, Merged(map[], rows), Merged(map[], rows).Keys) == Merged(store, rows)
  {
    var g := Merged(map[], rows);
    var lhs := Partial(store, g, g.Keys);
    var rhs := Merged(store, rows);
    assert g.Keys == TopicsOf(rows);
    assert lhs.Keys == rhs.Keys;
    forall t | t in lhs ensures lhs[t] == rhs[t] {
      PartialAllAt(store, rows, t);
    }
  }

  lemma PartialAllAt(store: Store, rows: seq<ResultRow>, t: string)
    requires AllListed(rows)
    ensures (if t in Merged(map[], rows) then Merged(map[], rows)[t] else []) == EntriesFor(rows, t)
  {
    if t !in TopicsOf(rows) {
      EntriesForAbsent(rows, t);
    } else {
      assert Merged(map[], rows)[t] == Existing(map[], t) + EntriesFor(rows, t);
    }
  }

  /** The first pass of `writeResults`: the markdown blocks and the
      per-topic groups (`jsonOutput`); `None` when `news.map` throws. */
  method GroupRows(rows: seq<ResultRow>) returns (r: Option<(string, Store)>)
    ensures AllListed(rows) ==> r == Some((Blocks(rows), Merged(map[], rows)))
    ensures !AllListed(rows) ==> r.None?
  {
    var blocks := "";
    var groups: Store := map[];
    var i := 0;
    MergedNothing(map[]);
    while i < |rows|
      invariant 0 <= i <= |rows| && AllListed(rows[..i])
      invariant blocks == Blocks(rows[..i])
      invariant groups == Merged(map[], rows[..i])
    {
      var row := rows[i];
      if row.news.None? {
        return None;
      }
      BlocksSnoc(rows, i);
      MergedPrefix(map[], rows, i);
      blocks := blocks + ResultBlock(row);
      groups := groups[row.topic := Existing(groups, row.topic) + [EntryOf(row)]];
      i := i + 1;
    }
    assert rows[..i] == rows;
    return Some((blocks, groups));
  }

  /** The second pass: each group is appended to its topic's stored list,
      in whatever order the topics are visited. */
  method MergeGroups(store: Store, groups: Store) returns (existing: Store)
    ensures existing == Partial(store, groups, groups.Keys)
  {
    existing := store;
    var remaining := groups.Keys;
    PartialNone(store, groups);
    while remaining != {}
      invariant remaining <= groups.Keys
      invariant existing == Partial(store, groups, groups.Keys - remaining)
      decreases remaining
    {
      var t :| t in remaining;
      PartialStep(store, groups, groups.Keys - remaining, t);
      assert groups.Keys - (remaining - {t}) == (groups.Keys - remaining) + {t};
      existing := existing[t := Existing(existing, t) + groups[t]];
      remaining := remaining - {t};
    }
    assert groups.Keys - remaining == groups.Keys;
  }

  /** `writeResults` (src/services/fileService.js): render the markdown and
      group the rows by topic in one pass, append the markdown, then merge
      every group into the stored document.  A row whose news slot is not
      an array makes the first pass throw before anything is written. */
  method WriteResults(files: ResultFiles, rows: seq<ResultRow>, now: string) returns (r: Option<ResultFiles>)
    ensures AllListed(rows) ==>
      r == Some(ResultFiles(files.markdown + ResultsMarkdown(now, rows), Some(Merged(files.json.GetOr(map[]), rows))))
    ensures !AllListed(rows) ==> r.None?
  {
    var grouped := GroupRows(rows);
    if grouped.None? {
      return None;
    }
    var (blocks, groups) := grouped.value;
    var store := files.json.GetOr(map[]);
    var merged := MergeGroups(store, groups);
    PartialAll(store, rows);
    return Some(ResultFiles(files.markdown + ("\n## Results at " + now + "\n\n" + blocks), Some(merged)));
  }
}
