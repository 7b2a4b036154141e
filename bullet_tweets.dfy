/** The bullet tweet log: the writer of `python-scraper/scrape_tweets.py`
    (`append_tweets_to_file`) and the reader of `src/services/fileService.js`
    (`readTweetsFile`), which turns the log into one string per tweet. */
module BulletTweets {
  import opened Wrappers
  import opened JsText

  // ---------------------------------------------------------------------
  // Writer side
  // ---------------------------------------------------------------------

  /** A collected tweet as a dict; a missing key is `None`, and `.get`
      supplies the default. */
  datatype TweetDict = TweetDict(text: Option<string>, author: Option<string>, handle: Option<string>, time: Option<string>)

  const AuthorOpen := "- [Author: "
  const HandleOpen := "] [Handle: "
  const TimeOpen := "] [Time: "
  const SectionOpen := "## Tweets for '"
  const Indent := "  "

  /** The text after the bullet: `[Author: a] [Handle: h] [Time: t]`. */
  function Label(t: TweetDict): string {
    "[Author: " + t.author.GetOr("Unknown") + HandleOpen + t.handle.GetOr("@unknown") +
    TimeOpen + t.time.GetOr("Unknown") + "]"
  }

  function BulletLine(t: TweetDict): string {
    "- " + Label(t)
  }

  /** One element of the writer's `lines` list: the bullet and the indented text. */
  function Entry(t: TweetDict): string {
    BulletLine(t) + "\n" + Indent + t.text.GetOr("") + "\n"
  }

  /** `(from h)` for a truthy handle, `(global)` otherwise (the empty string stands for `None`). */
  function HandleInfo(handle: string): string {
    if handle != "" then "(from " + handle + ")" else "(global)"
  }

  function SectionLine(keyword: string, handle: string, now: string): string {
    SectionOpen + keyword + "' " + HandleInfo(handle) + " at " + now
  }

  /** The entries, each followed by the extra newline the writer adds. */
  function Entries(tweets: seq<TweetDict>): string {
    if tweets == [] then "" else Entry(tweets[0]) + "\n" + Entries(tweets[1..])
  }

  function SectionHeader(keyword: string, handle: string, now: string): string {
    "\n" + SectionLine(keyword, handle, now) + "\n\n"
  }

  /** The text one call appends; `now` is the formatted clock reading. */
  function Rendered(tweets: seq<TweetDict>, keyword: string, handle: string, now: string): string {
    SectionHeader(keyword, handle, now) + Entries(tweets)
  }

  lemma {:induction false} EntriesSnoc(tweets: seq<TweetDict>, k: nat)
    requires k < |tweets|
    ensures Entries(tweets[..k + 1]) == Entries(tweets[..k]) + Entry(tweets[k]) + "\n"
    decreases k
  {
    if k == 0 {
      assert tweets[..1] == [tweets[0]];
      assert tweets[..1][1..] == [];
    } else {
      assert tweets[..k + 1][1..] == tweets[1..][..k];
      assert tweets[..k][1..] == tweets[1..][..k - 1];
      EntriesSnoc(tweets[1..], k - 1);
    }
  }

  /** Appending entry `k` and a newline after the first `k` entries. */
  lemma WriteStep(prefix: string, tweets: seq<TweetDict>, k: nat)
    requires k < |tweets|
    ensures prefix + Entries(tweets[..k]) + Entry(tweets[k]) + "\n" == prefix + Entries(tweets[..k + 1])
  {
    EntriesSnoc(tweets, k);
    WriteAssoc(prefix, Entries(tweets[..k]), Entry(tweets[k]));
  }

  lemma WriteAssoc(a: string, b: string, c: string)
    ensures a + b + c + "\n" == a + (b + c + "\n")
  {
  }

  /** `append_tweets_to_file`: the entries are formatted first, then the
      header and each entry plus a newline are appended to the file. */
  method AppendTweetsToFile(file: string, tweets: seq<TweetDict>, keyword: string, handle: string, now: string)
    returns (out: string)
    ensures out == file + Rendered(tweets, keyword, handle, now)
  {
    var lines: seq<string> := [];
    for k := 0 to |tweets|
      invariant |lines| == k
      invariant forall i :: 0 <= i < k ==> lines[i] == Entry(tweets[i])
    {
      lines := lines + [Entry(tweets[k])];
    }
    var header := SectionHeader(keyword, handle, now);
    out := file + header;
    for k := 0 to |lines|
      invariant out == file + header + Entries(tweets[..k])
    {
      WriteStep(file + header, tweets, k);
      out := out + lines[k] + "\n";
    }
    assert tweets[..|tweets|] == tweets;
    TextAssoc(file, header, Entries(tweets));
  }

  lemma TextAssoc(a: string, b: string, c: string)
    ensures (a + b) + c == a + (b + c)
  {
  }

  // ---------------------------------------------------------------------
  // Reader side
  // ---------------------------------------------------------------------

  /** The loop variables of `readTweetsFile`: the tweets pushed so far and `currentLines`. */
  datatype BulletState = BulletState(tweets: seq<string>, current: seq<string>)

  const Start := BulletState([], [])

  /** The tweets after pushing the buffered lines, if any, joined by spaces and trimmed. */
  function Flushed(st: BulletState): seq<string> {
    if st.current != [] then st.tweets + [Trim(Join(st.current, " "))] else st.tweets
  }

  /** One iteration of the loop on a raw line. */
  function Step(st: BulletState, line: string): BulletState {
    var t := Trim(line);
    if t == "" || StartsWith(t, "## ") then st
    else if StartsWith(t, "- ") then BulletState(Flushed(st), [Trim(t[2..])])
    else st.(current := st.current + [t])
  }

  function RunFrom(st: BulletState, lines: seq<string>): BulletState
    decreases |lines|
  {
    if lines == [] then st else RunFrom(Step(st, lines[0]), lines[1..])
  }

  /** What `readTweetsFile` returns (`None`: the file does not exist). */
  function ReadTweetsFile(file: Option<string>): seq<string> {
    if file.None? then [] else Flushed(RunFrom(Start, Split(file.value)))
  }

  lemma {:induction false} RunFromAppend(st: BulletState, a: seq<string>, b: seq<string>)
    ensures RunFrom(st, a + b) == RunFrom(RunFrom(st, a), b)
    decreases |a|
  {
    if a == [] {
      assert a + b == b;
    } else {
      assert (a + b)[1..] == a[1..] + b;
      RunFromAppend(Step(st, a[0]), a[1..], b);
    }
  }

  lemma RunFromSnoc(st: BulletState, lines: seq<string>, line: string)
    ensures RunFrom(st, lines + [line]) == Step(RunFrom(st, lines), line)
  {
    RunFromAppend(st, lines, [line]);
  }

  /** `readTweetsFile` on the lines of the file: `tweets` and `currentLines`
      updated line by line, then the last buffer pushed. */
  method ReadLines(lines: seq<string>) returns (tweets: seq<string>)
    ensures tweets == Flushed(RunFrom(Start, lines))
  {
    tweets := [];
    var currentLines: seq<string> := [];
    for i := 0 to |lines|
      invariant BulletState(tweets, currentLines) == RunFrom(Start, lines[..i])
    {
      RunFromSnoc(Start, lines[..i], lines[i]);
      assert lines[..i + 1] == lines[..i] + [lines[i]];
      var trimmed := Trim(lines[i]);
      if trimmed == "" || StartsWith(trimmed, "## ") {
        continue;
      }
      if StartsWith(trimmed, "- ") {
        if |currentLines| > 0 {
          tweets := tweets + [Trim(Join(currentLines, " "))];
          currentLines := [];
        }
        currentLines := currentLines + [Trim(trimmed[2..])];
      } else {
        currentLines := currentLines + [trimmed];
      }
    }
    assert lines[..|lines|] == lines;
    if |currentLines| > 0 {
      tweets := tweets + [Trim(Join(currentLines, " "))];
    }
  }

  method ReadTweets(file: Option<string>) returns (tweets: seq<string>)
    ensures tweets == ReadTweetsFile(file)
  {
    if file.None? {
      return [];
    }
    tweets := ReadLines(Split(file.value));
  }

  // ---------------------------------------------------------------------
  // Every tweet read is non-empty
  // ---------------------------------------------------------------------

  /** What the loop keeps: pushed tweets are non-empty, buffered parts are
      non-empty and trimmed. */
  predicate Clean(st: BulletState) {
    (forall i :: 0 <= i < |st.tweets| ==> st.tweets[i] != "") &&
    (forall i :: 0 <= i < |st.current| ==> st.current[i] != "" && JsTrimmed(st.current[i]))
  }

  lemma FlushedClean(st: BulletState)
    requires Clean(st)
    ensures forall i :: 0 <= i < |Flushed(st)| ==> Flushed(st)[i] != ""
  {
    if st.current != [] {
      var j := Join(st.current, " ");
      assert j != [] && !IsJsSpace(j[0]);
      TrimEmptyIff(j);
    }
  }

  /** A trimmed line starting with "- " has something after the bullet. */
  lemma BulletRest(t: string)
    requires JsTrimmed(t) && StartsWith(t, "- ")
    ensures Trim(t[2..]) != ""
  {
    assert |t| > 2 by { assert t[1] == ' '; }
    var r := t[2..];
    assert r[|r| - 1] == t[|t| - 1];
    TrimEmptyIff(r);
  }

  lemma StepClean(st: BulletState, line: string)
    requires Clean(st)
    ensures Clean(Step(st, line))
  {
    var t := Trim(line);
    if t != "" && !StartsWith(t, "## ") {
      if StartsWith(t, "- ") {
        FlushedClean(st);
        BulletRest(t);
      }
    }
  }

  lemma {:induction false} RunClean(st: BulletState, lines: seq<string>)
    requires Clean(st)
    ensures Clean(RunFrom(st, lines))
    decreases |lines|
  {
    if lines != [] {
      StepClean(st, lines[0]);
      RunClean(Step(st, lines[0]), lines[1..]);
    }
  }

  /** `readTweetsFile` never returns an empty string. */
  lemma TweetsNonEmpty(file: Option<string>)
    ensures forall i :: 0 <= i < |ReadTweetsFile(file)| ==> ReadTweetsFile(file)[i] != ""
  {
    if file.Some? {
      RunClean(Start, Split(file.value));
      FlushedClean(RunFrom(Start, Split(file.value)));
    }
  }

  // ---------------------------------------------------------------------
  // How many tweets are read
  // ---------------------------------------------------------------------

  /** A line the reader takes as the start of a tweet. */
  predicate IsBullet(line: string) {
    StartsWith(Trim(line), "- ")
  }

  /** A line the reader appends to the current tweet. */
  predicate IsContinuation(line: string) {
    var t := Trim(line);
    t != "" && !StartsWith(t, "## ") && !StartsWith(t, "- ")
  }

  function BulletCount(lines: seq<string>): nat {
    if lines == [] then 0 else (if IsBullet(lines[0]) then 1 else 0) + BulletCount(lines[1..])
  }

  /** Some continuation line comes before the first bullet. */
  predicate TextBeforeBullet(lines: seq<string>) {
    lines != [] && !IsBullet(lines[0]) && (IsContinuation(lines[0]) || TextBeforeBullet(lines[1..]))
  }

  lemma BulletNotHeader(t: string)
    requires StartsWith(t, "- ")
    ensures t != "" && !StartsWith(t, "## ")
  {
    PrefixesClash(t, "- ", "## ", 0);
  }

  lemma {:induction false} RunCount(st: BulletState, lines: seq<string>)
    ensures |Flushed(RunFrom(st, lines))|
         == |st.tweets| + BulletCount(lines) + (if st.current != [] || TextBeforeBullet(lines) then 1 else 0)
    decreases |lines|
  {
    if lines != [] {
      var t := Trim(lines[0]);
      if StartsWith(t, "- ") {
        BulletNotHeader(t);
      }
      RunCount(Step(st, lines[0]), lines[1..]);
    }
  }

  /** One tweet per bullet line, plus one when text comes before the first bullet. */
  lemma TweetCount(s: string)
    ensures |ReadTweetsFile(Some(s))| == BulletCount(Split(s)) + (if TextBeforeBullet(Split(s)) then 1 else 0)
  {
    RunCount(Start, Split(s));
  }

  // ---------------------------------------------------------------------
  // Round trip
  // ---------------------------------------------------------------------

  /** What the writer needs for each entry to read back as one string: no
      field breaks its line, and the trimmed text does not look like a
      header or a bullet. */
  predicate Writable(t: TweetDict) {
    NoNewline(t.author.GetOr("Unknown")) && NoNewline(t.handle.GetOr("@unknown")) &&
    NoNewline(t.time.GetOr("Unknown")) && NoNewline(t.text.GetOr("")) &&
    !StartsWith(Trim(t.text.GetOr("")), "## ") && !StartsWith(Trim(t.text.GetOr("")), "- ")
  }

  /** The string an entry reads back as: the label, then the trimmed text if any. */
  function ReadBack(t: TweetDict): string {
    var text := Trim(t.text.GetOr(""));
    if text != "" then Label(t) + " " + text else Label(t)
  }

  function ReadBackAll(tweets: seq<TweetDict>): (r: seq<string>)
    ensures |r| == |tweets|
    ensures forall k :: 0 <= k < |tweets| ==> r[k] == ReadBack(tweets[k])
  {
    if tweets == [] then [] else [ReadBack(tweets[0])] + ReadBackAll(tweets[1..])
  }

  function EntryLines(t: TweetDict): seq<string> {
    [BulletLine(t), Indent + t.text.GetOr(""), ""]
  }

  function EntriesLines(tweets: seq<TweetDict>): seq<string> {
    if tweets == [] then [] else EntryLines(tweets[0]) + EntriesLines(tweets[1..])
  }

  lemma {:induction false} EntriesTerminated(tweets: seq<TweetDict>)
    ensures Entries(tweets) == Terminated(EntriesLines(tweets))
    decreases |tweets|
  {
    if tweets != [] {
      var t := tweets[0];
      EntriesTerminated(tweets[1..]);
      TerminatedAppend(EntryLines(t), EntriesLines(tweets[1..]));
      EntryTerminated(t);
    }
  }

  lemma EntryTerminated(t: TweetDict)
    ensures Terminated(EntryLines(t)) == Entry(t) + "\n"
  {
    var b := BulletLine(t);
    var x := Indent + t.text.GetOr("");
    assert EntryLines(t)[1..] == [x, ""];
    assert EntryLines(t)[1..][1..] == [""];
    assert Terminated([""]) == "\n";
    assert b + "\n" + (x + "\n" + "\n") == b + "\n" + x + "\n" + "\n";
  }

  /** The batch as the lines it consists of. */
  function BatchLines(tweets: seq<TweetDict>, keyword: string, handle: string, now: string): seq<string> {
    [SectionLine(keyword, handle, now), ""] + EntriesLines(tweets)
  }

  lemma HeaderTerminated(h: string, e: string)
    ensures "\n" + h + "\n\n" + e == "\n" + (Terminated([h, ""]) + e)
  {
    assert [h, ""][1..] == [""];
    assert Terminated([""]) == "\n" by {
      assert [""][1..] == [];
    }
    assert Terminated([h, ""]) == h + "\n" + "\n";
  }

  lemma RenderedTerminated(tweets: seq<TweetDict>, keyword: string, handle: string, now: string)
    ensures Rendered(tweets, keyword, handle, now) == "\n" + Terminated(BatchLines(tweets, keyword, handle, now))
  {
    var h := SectionLine(keyword, handle, now);
    EntriesTerminated(tweets);
    TerminatedAppend([h, ""], EntriesLines(tweets));
    HeaderTerminated(h, Entries(tweets));
  }

  // Each line kind: what one step does with any line showing the facts,
  // then the facts about the written line.

  lemma StepSkip(st: BulletState, line: string)
    requires Trim(line) == "" || StartsWith(Trim(line), "## ")
    ensures Step(st, line) == st
  {
  }

  lemma StepBullet(st: BulletState, line: string)
    requires StartsWith(Trim(line), "- ")
    ensures Step(st, line) == BulletState(Flushed(st), [Trim(Trim(line)[2..])])
  {
    BulletNotHeader(Trim(line));
  }

  lemma StepContinue(st: BulletState, line: string)
    requires IsContinuation(line)
    ensures Step(st, line) == st.(current := st.current + [Trim(line)])
  {
  }

  lemma BulletLineFacts(t: TweetDict)
    ensures Trim(BulletLine(t)) == BulletLine(t)
    ensures StartsWith(BulletLine(t), "- ")
    ensures Trim(BulletLine(t)[2..]) == Label(t)
    ensures Label(t) != [] && JsTrimmed(Label(t))
  {
    var b := BulletLine(t);
    var l := Label(t);
    assert l[0] == '[' && l[|l| - 1] == ']';
    assert b[0] == '-' && b[|b| - 1] == ']';
    TrimOfTrimmed(b);
    StartsWithAppend("- ", l);
    assert b[2..] == l;
    TrimOfTrimmed(l);
  }

  lemma TextLineTrim(text: string)
    ensures Trim(Indent + text) == Trim(text)
  {
    TrimSpacePrefix(Indent, text);
  }

  lemma SectionLineFacts(keyword: string, handle: string, now: string)
    ensures StartsWith(Trim(SectionLine(keyword, handle, now)), "## ")
  {
    var x := SectionLine(keyword, handle, now);
    assert x[..|SectionOpen|] == SectionOpen;
    TrimKeepsPrefix(x, SectionOpen);
    StartsWithShorter(Trim(x), SectionOpen, "## ");
  }

  /** The buffer an entry leaves behind. */
  function EntryParts(t: TweetDict): seq<string> {
    var text := Trim(t.text.GetOr(""));
    if text != "" then [Label(t), text] else [Label(t)]
  }

  lemma EntryEffect(st: BulletState, t: TweetDict)
    requires Writable(t)
    ensures RunFrom(st, EntryLines(t)) == BulletState(Flushed(st), EntryParts(t))
  {
    var l := EntryLines(t);
    var s1 := BulletState(Flushed(st), [Label(t)]);
    BulletLineFacts(t);
    StepBullet(st, l[0]);
    TextLineTrim(t.text.GetOr(""));
    if Trim(t.text.GetOr("")) == "" {
      StepSkip(s1, l[1]);
    } else {
      StepContinue(s1, l[1]);
      assert [Label(t)] + [Trim(t.text.GetOr(""))] == EntryParts(t);
    }
    StepSkip(Step(s1, l[1]), l[2]);
    RunFromThree(st, l[0], l[1], l[2]);
  }

  lemma RunFromThree(st: BulletState, a: string, b: string, c: string)
    ensures RunFrom(st, [a, b, c]) == Step(Step(Step(st, a), b), c)
  {
    var s1 := Step(st, a);
    assert RunFrom(st, [a, b, c]) == RunFrom(s1, [b, c]) by {
      assert [a, b, c][1..] == [b, c];
    }
    assert RunFrom(s1, [b, c]) == RunFrom(Step(s1, b), [c]) by {
      assert [b, c][1..] == [c];
    }
    RunFromOne(Step(s1, b), c);
  }

  lemma RunFromOne(st: BulletState, line: string)
    ensures RunFrom(st, [line]) == Step(st, line)
  {
    assert [line][1..] == [];
  }

  lemma FlushedParts(st: BulletState, t: TweetDict)
    ensures Flushed(BulletState(Flushed(st), EntryParts(t))) == Flushed(st) + [ReadBack(t)]
  {
    var text := Trim(t.text.GetOr(""));
    BulletLineFacts(t);
    if text != "" {
      JoinPair(Label(t), text, " ");
      var j := Label(t) + " " + text;
      assert j[0] == '[' && j[|j| - 1] == text[|text| - 1];
      TrimOfTrimmed(j);
    } else {
      TrimOfTrimmed(Label(t));
    }
  }

  lemma StringsAssoc(a: seq<string>, b: seq<string>, c: seq<string>)
    ensures a + b + c == a + (b + c)
  {
  }

  lemma {:induction false} EntriesEffect(st: BulletState, tweets: seq<TweetDict>)
    requires forall k :: 0 <= k < |tweets| ==> Writable(tweets[k])
    ensures Flushed(RunFrom(st, EntriesLines(tweets))) == Flushed(st) + ReadBackAll(tweets)
    decreases |tweets|
  {
    if tweets == [] {
      assert Flushed(st) + [] == Flushed(st);
    } else {
      var t := tweets[0];
      var s := BulletState(Flushed(st), EntryParts(t));
      EntryEffect(st, t);
      RunFromAppend(st, EntryLines(t), EntriesLines(tweets[1..]));
      EntriesEffect(s, tweets[1..]);
      FlushedParts(st, t);
      StringsAssoc(Flushed(st), [ReadBack(t)], ReadBackAll(tweets[1..]));
    }
  }

  predicate LinesUnbroken(lines: seq<string>) {
    forall k :: 0 <= k < |lines| ==> NoNewline(lines[k])
  }

  lemma UnbrokenAppend(a: seq<string>, b: seq<string>)
    requires LinesUnbroken(a) && LinesUnbroken(b)
    ensures LinesUnbroken(a + b)
  {
    forall k | 0 <= k < |a + b|
      ensures NoNewline((a + b)[k])
    {
      if k < |a| {
        assert (a + b)[k] == a[k];
      } else {
        assert (a + b)[k] == b[k - |a|];
      }
    }
  }

  lemma {:induction false} EntriesUnbroken(tweets: seq<TweetDict>)
    requires forall k :: 0 <= k < |tweets| ==> Writable(tweets[k])
    ensures LinesUnbroken(EntriesLines(tweets))
    decreases |tweets|
  {
    if tweets != [] {
      var t := tweets[0];
      assert LinesUnbroken(EntryLines(t));
      EntriesUnbroken(tweets[1..]);
      UnbrokenAppend(EntryLines(t), EntriesLines(tweets[1..]));
    }
  }

  lemma BlankTail(st: BulletState, lines: seq<string>)
    ensures RunFrom(st, lines + [""]) == RunFrom(st, lines)
  {
    RunFromSnoc(st, lines, "");
    assert Trim("") == "";
  }

  lemma BatchUnbroken(tweets: seq<TweetDict>, keyword: string, handle: string, now: string)
    requires forall k :: 0 <= k < |tweets| ==> Writable(tweets[k])
    requires NoNewline(keyword) && NoNewline(handle) && NoNewline(now)
    ensures LinesUnbroken(BatchLines(tweets, keyword, handle, now))
  {
    var h := SectionLine(keyword, handle, now);
    EntriesUnbroken(tweets);
    SectionUnbroken(keyword, handle, now);
    UnbrokenAppend([h, ""], EntriesLines(tweets));
  }

  lemma SectionUnbroken(keyword: string, handle: string, now: string)
    requires NoNewline(keyword) && NoNewline(handle) && NoNewline(now)
    ensures LinesUnbroken([SectionLine(keyword, handle, now), ""])
  {
    var h := SectionLine(keyword, handle, now);
    assert forall k :: 0 <= k < |h| ==> h[k] != '\n';
  }

  /** Where the appended lines start: the log's own lines, then the batch's. */
  lemma SplitRendered(prior: string, tweets: seq<TweetDict>, keyword: string, handle: string, now: string)
    requires forall k :: 0 <= k < |tweets| ==> Writable(tweets[k])
    requires NoNewline(keyword) && NoNewline(handle) && NoNewline(now)
    ensures Split(prior + Rendered(tweets, keyword, handle, now))
         == Split(prior) + BatchLines(tweets, keyword, handle, now) + [""]
  {
    var l := BatchLines(tweets, keyword, handle, now);
    RenderedTerminated(tweets, keyword, handle, now);
    BatchUnbroken(tweets, keyword, handle, now);
    SplitAfter(prior, l);
  }

  lemma SplitAfter(prior: string, l: seq<string>)
    requires LinesUnbroken(l)
    ensures Split(prior + ("\n" + Terminated(l))) == Split(prior) + l + [""]
  {
    SplitTerminated(l);
    assert prior + ("\n" + Terminated(l)) == prior + "\n" + Terminated(l);
    SplitAtNewline(prior, Terminated(l));
    StringsAssoc(Split(prior), l, [""]);
  }

  /** Appending a batch to any log: the reader returns what it returned
      before, then one string per written tweet, label first. */
  lemma AppendReadsBack(prior: string, tweets: seq<TweetDict>, keyword: string, handle: string, now: string)
    requires forall k :: 0 <= k < |tweets| ==> Writable(tweets[k])
    requires NoNewline(keyword) && NoNewline(handle) && NoNewline(now)
    ensures ReadTweetsFile(Some(prior + Rendered(tweets, keyword, handle, now)))
         == ReadTweetsFile(Some(prior)) + ReadBackAll(tweets)
  {
    var h := SectionLine(keyword, handle, now);
    var s0 := RunFrom(Start, Split(prior));
    SplitRendered(prior, tweets, keyword, handle, now);
    BlankTail(Start, Split(prior) + BatchLines(tweets, keyword, handle, now));
    RunFromAppend(Start, Split(prior), BatchLines(tweets, keyword, handle, now));
    RunFromAppend(s0, [h, ""], EntriesLines(tweets));
    SectionLineFacts(keyword, handle, now);
    HeaderEffect(s0, h);
    EntriesEffect(s0, tweets);
  }

  lemma HeaderEffect(st: BulletState, h: string)
    requires StartsWith(Trim(h), "## ")
    ensures RunFrom(st, [h, ""]) == st
  {
    assert RunFrom(st, [h, ""]) == RunFrom(Step(st, h), [""]) by {
      assert [h, ""][1..] == [""];
    }
    StepSkip(st, h);
    RunFromOne(st, "");
    StepSkip(st, "");
  }
}
