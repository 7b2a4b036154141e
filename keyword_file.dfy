/** The keyword file of the Python scraper (manage_scraper_keywords.py): a
    text file holding comment lines and one keyword per line, read back as
    a set and rewritten in sorted order by the add, remove and clear
    commands. */
module KeywordFile {
  import opened Wrappers
  import opened JsText

  // Python's ordering of strings: code point by code point, a proper
  // prefix first.

  predicate LexLe(a: string, b: string) {
    a == [] || (b != [] && (a[0] < b[0] || (a[0] == b[0] && LexLe(a[1..], b[1..]))))
  }

  predicate LexLt(a: string, b: string) {
    LexLe(a, b) && a != b
  }

  lemma {:induction false} LexTotal(a: string, b: string)
    ensures LexLe(a, b) || LexLe(b, a)
  {
    if a != [] && b != [] && a[0] == b[0] {
      LexTotal(a[1..], b[1..]);
    }
  }

  lemma {:induction false} LexAntisymmetric(a: string, b: string)
    requires LexLe(a, b) && LexLe(b, a)
    ensures a == b
  {
    if a != [] && b != [] {
      LexAntisymmetric(a[1..], b[1..]);
      assert a == [a[0]] + a[1..] && b == [b[0]] + b[1..];
    }
  }

  lemma {:induction false} LexTransitive(a: string, b: string, c: string)
    requires LexLe(a, b) && LexLe(b, c)
    ensures LexLe(a, c)
  {
    if a != [] && b != [] && c != [] && a[0] == b[0] && b[0] == c[0] {
      LexTransitive(a[1..], b[1..], c[1..]);
    }
  }

  /** A non-empty finite set of strings has a least element. */
  lemma {:induction false} HasLeast(s: set<string>)
    requires s != {}
    ensures exists m :: m in s && forall x :: x in s ==> LexLe(m, x)
  {
    var y :| y in s;
    if s == {y} {
      assert forall x :: x in s ==> x == y;
      LexTotal(y, y);
    } else {
      HasLeast(s - {y});
      var m :| m in s - {y} && forall x :: x in s - {y} ==> LexLe(m, x);
      LexTotal(m, y);
      if LexLe(m, y) {
        assert forall x :: x in s ==> LexLe(m, x);
      } else {
        forall x | x in s
          ensures LexLe(y, x)
        {
          if x != y {
            LexTransitive(y, m, x);
          } else {
            LexTotal(y, y);
          }
        }
      }
    }
  }

  /** The least keyword of a non-empty set. */
  function Least(s: set<string>): (m: string)
    requires s != {}
    ensures m in s && forall x :: x in s ==> LexLe(m, x)
  {
    HasLeast(s);
    var m :| m in s && forall x :: x in s ==> LexLe(m, x);
    assert forall m' :: m' in s && (forall x :: x in s ==> LexLe(m', x)) ==> m' == m by {
      forall m' | m' in s && (forall x :: x in s ==> LexLe(m', x))
        ensures m' == m
      {
        LexAntisymmetric(m, m');
      }
    }
    m
  }

  /** Python's `sorted` on a set of strings: every element once, in
      strictly increasing order. */
  function Sorted(s: set<string>): (r: seq<string>)
    ensures |r| == |s|
    ensures forall x :: x in s <==> x in r
    ensures forall i, j :: 0 <= i < j < |r| ==> LexLt(r[i], r[j])
    decreases |s|
  {
    if s == {} then []
    else
      var m := Least(s);
      var rest := Sorted(s - {m});
      assert forall j :: 0 <= j < |rest| ==> LexLt(m, rest[j]) by {
        forall j | 0 <= j < |rest|
          ensures LexLt(m, rest[j])
        {
          assert rest[j] in s - {m};
        }
      }
      [m] + rest
  }

  // The file.

  /** The four comment lines and the blank line `write_keywords` starts
      with (long lines are spelled in pieces). */
  const HeaderLines := ["# Python Scraper Configuration", "# Keywords listed here " + "will be actively scraped",
    "# Remove keywords " + "to stop scraping them", "# Add new keywords " + "to start scraping them", ""]

  const ActiveLine := "# Currently active keywords:"

  const StoppedLine := "# No active keywords " + "- scraper will be stopped"

  /** The lines `write_keywords` writes for `keywords`: the comments, then
      the keywords in sorted order. */
  function FileLines(keywords: set<string>): seq<string> {
    Comments(keywords) + Listed(keywords)
  }

  /** The header, then the active notice, or the stopped notice when there
      are no keywords. */
  function Comments(keywords: set<string>): seq<string> {
    HeaderLines + [if keywords != {} then ActiveLine else StoppedLine]
  }

  function Listed(keywords: set<string>): seq<string> {
    if keywords != {} then Sorted(keywords) else []
  }

  /** The text `write_keywords` leaves in the file: every line ends in a
      newline. */
  function FileText(keywords: set<string>): (r: string)
    ensures r != [] && r[|r| - 1] == '\n'
  {
    Terminated(FileLines(keywords))
  }

  /** A line that `read_keywords` keeps: not blank after stripping and not
      a comment. */
  predicate Kept(line: string) {
    var s := PyStrip(line);
    s != [] && s[0] != '#'
  }

  /** `read_keywords` on lines: the stripped kept lines. */
  function KeywordsOf(lines: seq<string>): (r: set<string>)
    ensures forall k :: k in r ==> Readable(k)
  {
    if lines == [] then {}
    else
      var line := lines[|lines| - 1];
      var before := KeywordsOf(lines[..|lines| - 1]);
      if Kept(line) then
        PyStripOfStripped(PyStrip(line));
        before + {PyStrip(line)}
      else before
  }

  /** `read_keywords` on the file's text, lines as `split('\n')` gives them. */
  function Parse(text: string): (r: set<string>)
    ensures forall k :: k in r ==> Readable(k)
  {
    KeywordsOf(Split(text))
  }

  /** `read_keywords` on a file that may not exist. */
  function Stored(file: Option<string>): set<string> {
    match file
    case None => {}
    case Some(text) => Parse(text)
  }

  /** A keyword that reads back as itself: non-empty, without surrounding
      whitespace, not starting with "#". */
  predicate Readable(k: string) {
    k != [] && k[0] != '#' && PyStrip(k) == k
  }

  lemma StripInside(line: string)
    ensures forall c :: c in PyStrip(line) ==> c in line
  {
    var h := PyStripStart(line);
    var r := PyStripEnd(h);
    assert r == h[..|r|] && h == line[|line| - |h|..];
    forall c | c in r
      ensures c in line
    {
      var i :| 0 <= i < |r| && r[i] == c;
      assert h[i] == c;
      assert line[|line| - |h| + i] == c;
    }
  }

  lemma KeywordsOfSnoc(lines: seq<string>, i: nat)
    requires i < |lines|
    ensures KeywordsOf(lines[..i + 1]) == KeywordsOf(lines[..i]) + (if Kept(lines[i]) then {PyStrip(lines[i])} else {})
  {
    assert lines[..i + 1][..i] == lines[..i];
  }

  lemma {:induction false} KeywordsOfAppend(a: seq<string>, b: seq<string>)
    ensures KeywordsOf(a + b) == KeywordsOf(a) + KeywordsOf(b)
  {
    if b != [] {
      var ab := a + b;
      assert ab[..|ab| - 1] == a + b[..|b| - 1] && ab[|ab| - 1] == b[|b| - 1];
      KeywordsOfAppend(a, b[..|b| - 1]);
    } else {
      assert a + b == a;
    }
  }

  /** A line whose first character is not whitespace keeps that character
      first after stripping. */
  lemma StripKeepsFirst(s: string)
    requires s != [] && !IsPySpace(s[0])
    ensures PyStrip(s) != [] && PyStrip(s)[0] == s[0]
  {
    assert PyStripStart(s) == s;
  }

  /** Comment and blank lines add nothing. */
  lemma {:induction false} CommentsAddNothing(lines: seq<string>)
    requires forall i :: 0 <= i < |lines| ==> Comment(lines[i])
    ensures KeywordsOf(lines) == {}
  {
    if lines != [] {
      var last := lines[|lines| - 1];
      if last != [] {
        StripKeepsFirst(last);
      }
      CommentsAddNothing(lines[..|lines| - 1]);
    }
  }

  /** Readable keywords on lines of their own read back as exactly the
      set of them. */
  lemma {:induction false} ReadableLines(lines: seq<string>)
    requires forall i :: 0 <= i < |lines| ==> Readable(lines[i])
    ensures KeywordsOf(lines) == set k | k in lines
  {
    if lines != [] {
      var init, last := lines[..|lines| - 1], lines[|lines| - 1];
      ReadableLines(init);
      assert forall k :: k in lines <==> k in init || k == last;
    }
  }

  predicate Comment(line: string) {
    line == [] || line[0] == '#'
  }

  predicate AllComments(lines: seq<string>) {
    forall i :: 0 <= i < |lines| ==> Comment(lines[i]) && NoNewline(lines[i])
  }

  lemma CommentsSnoc(lines: seq<string>, line: string)
    requires AllComments(lines) && Comment(line) && NoNewline(line)
    ensures AllComments(lines + [line])
  {
  }

  lemma HeaderComments()
    ensures AllComments(HeaderLines)
  {
    HeaderLine0();
    HeaderLine1();
    HeaderLine2();
    HeaderLine3();
  }

  lemma HeaderLine0()
    ensures Comment(HeaderLines[0]) && NoNewline(HeaderLines[0])
  {
  }

  lemma HeaderLine1()
    ensures Comment(HeaderLines[1]) && NoNewline(HeaderLines[1])
  {
  }

  lemma HeaderLine2()
    ensures Comment(HeaderLines[2]) && NoNewline(HeaderLines[2])
  {
  }

  lemma HeaderLine3()
    ensures Comment(HeaderLines[3]) && NoNewline(HeaderLines[3])
  {
  }

  lemma ActiveLineComment()
    ensures Comment(ActiveLine) && NoNewline(ActiveLine)
  {
  }

  lemma StoppedLineComment()
    ensures Comment(StoppedLine) && NoNewline(StoppedLine)
  {
  }

  /** Comment lines followed by readable keywords, each ended by a newline,
      read back as exactly those keywords. */
  lemma ReadBack(comments: seq<string>, keywords: seq<string>)
    requires AllComments(comments)
    requires forall i :: 0 <= i < |keywords| ==> Readable(keywords[i]) && NoNewline(keywords[i])
    ensures Parse(Terminated(comments + keywords)) == set k | k in keywords
  {
    var lines := comments + keywords;
    assert forall i :: 0 <= i < |lines| ==> NoNewline(lines[i]) by {
      forall i | 0 <= i < |lines|
        ensures NoNewline(lines[i])
      {
        if i >= |comments| {
          assert lines[i] == keywords[i - |comments|];
        }
      }
    }
    SplitTerminated(lines);
    KeywordsOfAppend(lines, [""]);
    KeywordsOfAppend(comments, keywords);
    CommentsAddNothing([""]);
    CommentsAddNothing(comments);
    ReadableLines(keywords);
  }

  /** Round trip: writing a set of readable keywords and reading the file
      back gives the same set. */
  lemma WriteThenRead(keywords: set<string>)
    requires forall k :: k in keywords ==> Readable(k) && NoNewline(k)
    ensures Parse(FileText(keywords)) == keywords
  {
    var notice := if keywords != {} then ActiveLine else StoppedLine;
    HeaderComments();
    ActiveLineComment();
    StoppedLineComment();
    CommentsSnoc(HeaderLines, notice);
    ReadBack(Comments(keywords), Listed(keywords));
    SortedElements(keywords);
  }

  lemma SortedElements(keywords: set<string>)
    ensures (set k | k in Listed(keywords)) == keywords
  {
  }

  /** What `read_keywords` returns always reads back as itself, so its
      sets survive a rewrite unchanged. */
  lemma StoredIsReadable(file: Option<string>)
    ensures forall k :: k in Stored(file) ==> Readable(k) && NoNewline(k)
  {
    if file.Some? {
      var lines := Split(file.value);
      KeywordsOfLines(lines);
    }
  }

  lemma {:induction false} KeywordsOfLines(lines: seq<string>)
    requires forall i :: 0 <= i < |lines| ==> NoNewline(lines[i])
    ensures forall k :: k in KeywordsOf(lines) ==> NoNewline(k)
  {
    if lines != [] {
      KeywordsOfLines(lines[..|lines| - 1]);
      var line := lines[|lines| - 1];
      assert NoNewline(line);
      StripInside(line);
    }
  }

  /** After `clear_keywords`, `read_keywords` finds nothing. */
  lemma ClearThenRead()
    ensures Parse(FileText({})) == {}
  {
    WriteThenRead({});
  }

  /** `add_keyword` twice leaves the file as `add_keyword` once, for a
      keyword that reads back as itself. */
  lemma AddTwice(file: Option<string>, k: string)
    requires Readable(k) && NoNewline(k)
    ensures var once := FileText(Stored(file) + {k});
      FileText(Parse(once) + {k}) == once
  {
    var added := Stored(file) + {k};
    StoredIsReadable(file);
    assert forall x :: x in added ==> Readable(x) && NoNewline(x);
    WriteThenRead(added);
    var once := FileText(added);
    assert Parse(once) == added;
    assert Parse(once) + {k} == added;
  }


  lemma WriteStep(comments: seq<string>, sorted: seq<string>, i: nat)
    requires i < |sorted|
    ensures Terminated(comments + sorted[..i + 1]) == Terminated(comments + sorted[..i]) + sorted[i] + "\n"
  {
    assert comments + sorted[..i + 1] == (comments + sorted[..i]) + [sorted[i]];
    TerminatedSnoc(comments + sorted[..i], sorted[i]);
  }

  /** The file, `None` while it does not exist. */
  class KeywordStore {
    var file: Option<string>

    constructor(file: Option<string>)
      ensures this.file == file
    {
      this.file := file;
    }

    /** `read_keywords`: the stripped lines that are neither blank nor
        comments; nothing when there is no file. */
    method ReadKeywords() returns (keywords: set<string>)
      ensures keywords == Stored(file)
    {
      keywords := {};
      if file.Some? {
        var lines := Split(file.value);
        var i := 0;
        assert lines[..0] == [];
        while i < |lines|
          invariant 0 <= i <= |lines|
          invariant keywords == KeywordsOf(lines[..i])
        {
          var line := PyStrip(lines[i]);
          KeywordsOfSnoc(lines, i);
          if line != [] && line[0] != '#' {
            keywords := keywords + {line};
          }
          i := i + 1;
        }
        assert lines[..i] == lines;
      }
    }

    /** `write_keywords`: the header, then the sorted keywords or the
        stopped notice. */
    method WriteKeywords(keywords: set<string>)
      modifies this
      ensures file == Some(FileText(keywords))
    {
      var text := Terminated(HeaderLines);
      if keywords != {} {
        TerminatedSnoc(HeaderLines, ActiveLine);
        text := text + ActiveLine + "\n";
        var sorted := Sorted(keywords);
        var i := 0;
        assert Comments(keywords) + sorted[..0] == HeaderLines + [ActiveLine];
        while i < |sorted|
          invariant 0 <= i <= |sorted|
          invariant text == Terminated(Comments(keywords) + sorted[..i])
        {
          WriteStep(Comments(keywords), sorted, i);
          text := text + sorted[i] + "\n";
          i := i + 1;
        }
        assert sorted[..i] == sorted;
        assert FileLines(keywords) == Comments(keywords) + sorted;
      } else {
        TerminatedSnoc(HeaderLines, StoppedLine);
        text := text + StoppedLine + "\n";
        assert FileLines(keywords) == HeaderLines + [StoppedLine];
      }
      file := Some(text);
    }

    /** `add_keyword`: read, add, rewrite. */
    method AddKeyword(k: string)
      modifies this
      ensures file == Some(FileText(Stored(old(file)) + {k}))
    {
      var keywords := ReadKeywords();
      keywords := keywords + {k};
      WriteKeywords(keywords);
    }

    /** `remove_keyword`: a listed keyword is removed and the file
        rewritten; an absent one leaves the file untouched. */
    method RemoveKeyword(k: string) returns (found: bool)
      modifies this
      ensures found <==> k in Stored(old(file))
      ensures found ==> file == Some(FileText(Stored(old(file)) - {k}))
      ensures !found ==> file == old(file)
    {
      var keywords := ReadKeywords();
      found := k in keywords;
      if found {
        keywords := keywords - {k};
        WriteKeywords(keywords);
      }
    }

    /** `clear_keywords`: the file written for no keywords. */
    method ClearKeywords()
      modifies this
      ensures file == Some(FileText({}))
    {
      WriteKeywords({});
    }
  }
}
