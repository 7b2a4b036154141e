/** The keyword scraper `python-scraper/scrape_tweets.py`: the search URL
    (`build_search_url`), the fields read from each tweet element, and the
    per-keyword seen-key set that `search_and_scrape_tweets` keeps across
    calls so that no tweet is returned twice for the same keyword.  What the
    browser shows on each scroll pass is an input. */
module ScrapeSession {
  import opened Wrappers
  import opened JsText

  // ---------------------------------------------------------------------
  // Search URL
  // ---------------------------------------------------------------------

  const SearchBase := "https://twitter.com/search?q="
  const FromPrefix := "from%3A"
  const QuerySpace := "%20"
  const LiveSuffix := "&f=live"

  /** `s.replace(c, "")` for a one-character `c`. */
  function RemoveChar(s: string, c: char): (r: string)
    ensures c !in r
    ensures |r| <= |s|
    decreases |s|
  {
    if s == [] then []
    else if s[0] == c then RemoveChar(s[1..], c)
    else [s[0]] + RemoveChar(s[1..], c)
  }

  /** A string without `c` is left as it is. */
  lemma {:induction false} RemoveCharAbsent(s: string, c: char)
    requires c !in s
    ensures RemoveChar(s, c) == s
    decreases |s|
  {
    if s != [] {
      assert c !in s[1..];
      RemoveCharAbsent(s[1..], c);
    }
  }

  /** Every other character survives, in order: removing `c` keeps exactly
      the characters different from `c`. */
  lemma {:induction false} RemoveCharKeeps(s: string, c: char, d: char)
    requires d != c
    ensures d in RemoveChar(s, c) <==> d in s
    decreases |s|
  {
    if s != [] {
      RemoveCharKeeps(s[1..], c, d);
      assert s == [s[0]] + s[1..];
    }
  }

  /** `build_search_url`: a handle (any non-empty one) restricts the query
      to that account, with every `@` removed. */
  function BuildSearchUrl(keyword: string, handle: Option<string>): (url: string)
    ensures StartsWith(url, SearchBase)
  {
    var query :=
      if handle.Some? && handle.value != "" then FromPrefix + RemoveChar(handle.value, '@') + QuerySpace + keyword
      else keyword;
    assert (SearchBase + query + LiveSuffix)[..|SearchBase|] == SearchBase;
    SearchBase + query + LiveSuffix
  }

  /** Both forms end with the "Latest" filter, and the query between the
      base and the filter is the account filter or the bare keyword. */
  lemma SearchUrlShape(keyword: string, handle: Option<string>)
    ensures var url := BuildSearchUrl(keyword, handle);
            |url| >= |SearchBase| + |LiveSuffix| && url[|url| - |LiveSuffix|..] == LiveSuffix
    ensures handle.Some? && handle.value != "" ==>
              BuildSearchUrl(keyword, handle) == SearchBase + FromPrefix + RemoveChar(handle.value, '@') + QuerySpace + keyword + LiveSuffix
    ensures handle.None? || handle.value == "" ==>
              BuildSearchUrl(keyword, handle) == SearchBase + keyword + LiveSuffix
  {
    var url := BuildSearchUrl(keyword, handle);
    var query := url[|SearchBase|..|url| - |LiveSuffix|];
    assert url == SearchBase + query + LiveSuffix;
  }

  /** With or without the leading `@`, a handle gives the same URL. */
  lemma SearchUrlIgnoresAt(keyword: string, h: string)
    requires h != ""
    ensures BuildSearchUrl(keyword, Some("@" + h)) == BuildSearchUrl(keyword, Some(h))
  {
    assert ("@" + h)[1..] == h;
  }

  // ---------------------------------------------------------------------
  // Reading one tweet element
  // ---------------------------------------------------------------------

  /** What the page shows for one `article` element.  `None` means the
      sub-element was not found (its lookup raised); `time` is `Some(None)`
      when the `time` element has no `datetime` attribute. */
  datatype Element = Element(text: Option<string>, author: Option<string>, handle: Option<string>, time: Option<Option<string>>)

  /** A collected tweet: `{'text', 'author', 'handle', 'time'}`. */
  datatype Found = Found(text: string, author: string, handle: string, time: string)

  /** The handle as stored: stripped, with `@` prefixed when missing. */
  function HandleOf(h: Option<string>): (r: string)
    ensures r != [] && r[0] == '@'
  {
    if h.None? then "@unknown"
    else
      var t := PyStrip(h.value);
      if StartsWith(t, "@") then t else "@" + t
  }

  function TimeOf(t: Option<Option<string>>): (r: string)
    ensures r != ""
  {
    if t.Some? && t.value.Some? && t.value.value != "" then t.value.value else "Unknown"
  }

  /** The fields of one element, or `None` when it is skipped: no text
      element, or text that is blank after stripping. */
  function Extract(e: Element): (r: Option<Found>)
    ensures r.Some? ==> r.value.text != "" && r.value.handle != [] && r.value.handle[0] == '@' && r.value.time != ""
  {
    if e.text.None? || PyStrip(e.text.value) == "" then None
    else
      Some(Found(PyStrip(e.text.value),
                 if e.author.Some? then PyStrip(e.author.value) else "Unknown",
                 HandleOf(e.handle),
                 TimeOf(e.time)))
  }

  /** The missing-field defaults. */
  lemma ExtractDefaults(text: string)
    requires PyStrip(text) != ""
    ensures Extract(Element(Some(text), None, None, None)) == Some(Found(PyStrip(text), "Unknown", "@unknown", "Unknown"))
    ensures Extract(Element(Some(text), None, None, Some(None))) == Some(Found(PyStrip(text), "Unknown", "@unknown", "Unknown"))
  {
  }

  /** A handle found without `@` gets one; a stripped handle with `@` is
      kept as it is. */
  lemma HandlePrefixed(h: string)
    requires h != [] && !IsPySpace(h[0]) && !IsPySpace(h[|h| - 1])
    ensures HandleOf(Some(h)) == (if h[0] == '@' then h else "@" + h)
  {
    PyStripOfStripped(h);
  }

  /** `f"{tweet_text} | {author_text} | {handle_text} | {tweet_time}"` */
  function Key(f: Found): string {
    f.text + " | " + f.author + " | " + f.handle + " | " + f.time
  }

  // ---------------------------------------------------------------------
  // Passes and the seen set
  // ---------------------------------------------------------------------

  /** The tweets collected so far in one call, and the keyword's seen set. */
  datatype Collected = Collected(found: seq<Found>, seen: set<string>)

  /** One extracted element: skipped, already seen, or collected and
      marked seen. */
  function Take(st: Collected, f: Option<Found>): Collected {
    if f.None? || Key(f.value) in st.seen then st
    else Collected(st.found + [f.value], st.seen + {Key(f.value)})
  }

  function Visit(st: Collected, e: Element): Collected {
    Take(st, Extract(e))
  }

  /** The state after the elements `els` of one pass. */
  function VisitAll(st: Collected, els: seq<Element>): Collected
    decreases |els|
  {
    if els == [] then st else VisitAll(Visit(st, els[0]), els[1..])
  }

  /** A pass only appends. */
  lemma {:induction false} VisitAllGrows(st: Collected, els: seq<Element>)
    ensures |st.found| <= |VisitAll(st, els).found|
    ensures VisitAll(st, els).found[..|st.found|] == st.found
    decreases |els|
  {
    if els != [] {
      var next := Visit(st, els[0]);
      VisitAllGrows(next, els[1..]);
      assert next.found[..|st.found|] == st.found;
    }
  }

  /** Unfolding one element of a pass. */
  lemma VisitAllStep(st: Collected, els: seq<Element>, i: nat)
    requires i < |els|
    ensures VisitAll(st, els[i..]) == VisitAll(Take(st, Extract(els[i])), els[i + 1..])
  {
    assert els[i..][1..] == els[i + 1..];
  }

  /** The elements of pass `k` (counting from 0); passes beyond the recorded
      ones find nothing. */
  function PageAt(pages: seq<seq<Element>>, k: nat): seq<Element> {
    if k < |pages| then pages[k] else []
  }

  /** The state after the call, the number of passes it ran and how many
      tweets its last pass added. */
  datatype Outcome = Outcome(collected: Collected, passes: nat, lastAdded: nat)

  /** The scroll loop from pass `k` on: run a pass, then stop when it added
      nothing or `max` passes have run.  So at least one pass runs, at most
      `max(k + 1, max)` do, and the loop ends before `max` only after a pass
      that added nothing. */
  function ScrollFrom(st: Collected, pages: seq<seq<Element>>, k: nat, max: int): (o: Outcome)
    ensures k < o.passes
    ensures o.passes <= (if k + 1 <= max then max else k + 1)
    ensures o.passes < max ==> o.lastAdded == 0
    ensures |st.found| <= |o.collected.found|
    decreases max - k
  {
    var next := VisitAll(st, PageAt(pages, k));
    VisitAllGrows(st, PageAt(pages, k));
    if |next.found| == |st.found| || k + 1 >= max then Outcome(next, k + 1, |next.found| - |st.found|)
    else ScrollFrom(next, pages, k + 1, max)
  }

  /** One pass of the loop, unfolded. */
  lemma ScrollUnfold(st: Collected, pages: seq<seq<Element>>, k: nat, max: int)
    ensures var next := VisitAll(st, PageAt(pages, k));
            && (|next.found| == |st.found| || k + 1 >= max ==> ScrollFrom(st, pages, k, max).collected == next)
            && (|next.found| != |st.found| && k + 1 < max ==> ScrollFrom(st, pages, k, max) == ScrollFrom(next, pages, k + 1, max))
  {
  }

  /** Setting a key to its own value changes nothing. */
  lemma UpdateSame(m: map<string, set<string>>, k: string)
    requires k in m
    ensures m[k := m[k]] == m
  {
  }

  /** Setting a key twice keeps the second value. */
  lemma UpdateTwice(m: map<string, set<string>>, k: string, u: set<string>, v: set<string>)
    ensures m[k := u][k := v] == m[k := v]
  {
  }

  /** The keyword's entry after initialisation decides the map. */
  lemma UpdateAgain(m1: map<string, set<string>>, m2: map<string, set<string>>, k: string, v: set<string>)
    requires k in m1 && m1 == (if k in m2 then m2 else m2[k := {}])
    ensures m1[k := v] == m2[k := v]
  {
  }

  /** The keyword's seen set, empty when the keyword is new. */
  function SeenFor(seenByKeyword: map<string, set<string>>, keyword: string): set<string> {
    if keyword in seenByKeyword then seenByKeyword[keyword] else {}
  }

  /** The outcome of one call for `keyword`, starting from its seen set. */
  function Search(seenByKeyword: map<string, set<string>>, keyword: string, pages: seq<seq<Element>>, max: int): Outcome {
    ScrollFrom(Collected([], SeenFor(seenByKeyword, keyword)), pages, 0, max)
  }

  /** The element loop of one pass, from the collected list and the
      keyword's seen set: each new key is appended to the list and added to
      the set. */
  method ScanPass(collected: seq<Found>, seen0: set<string>, els: seq<Element>)
      returns (newTweets: seq<Found>, seen: set<string>, newInThisPass: nat)
    ensures Collected(newTweets, seen) == VisitAll(Collected(collected, seen0), els)
    ensures newInThisPass == |newTweets| - |collected|
  {
    newTweets := collected;
    newInThisPass := 0;
    seen := seen0;
    var i := 0;
    while i < |els|
      invariant 0 <= i <= |els|
      invariant newInThisPass == |newTweets| - |collected|
      invariant VisitAll(Collected(newTweets, seen), els[i..]) == VisitAll(Collected(collected, seen0), els)
    {
      VisitAllStep(Collected(newTweets, seen), els, i);
      var f := Extract(els[i]);
      if f.Some? && Key(f.value) !in seen {
        newTweets := newTweets + [f.value];
        seen := seen + {Key(f.value)};
        newInThisPass := newInThisPass + 1;
      }
      i := i + 1;
    }
    assert els[|els|..] == [];
  }

  /** The module-level `seen_tweets_by_keyword` and the search that updates
      it. */
  class Scraper {
    var seenByKeyword: map<string, set<string>>

    constructor()
      ensures seenByKeyword == map[]
    {
      seenByKeyword := map[];
    }

    /** `search_and_scrape_tweets` after loading the search page: `pages[k]`
        is what pass `k` finds.  Returns the new tweets; only the keyword's
        seen set changes. */
    method SearchAndScrape(keyword: string, pages: seq<seq<Element>>, maxScrollAttempts: int)
        returns (newTweets: seq<Found>)
      modifies this
      ensures newTweets == Search(old(seenByKeyword), keyword, pages, maxScrollAttempts).collected.found
      ensures seenByKeyword == old(seenByKeyword)[keyword := Search(old(seenByKeyword), keyword, pages, maxScrollAttempts).collected.seen]
    {
      if keyword !in seenByKeyword {
        seenByKeyword := seenByKeyword[keyword := {}];
      }
      var seen := seenByKeyword[keyword];
      assert seen == SeenFor(old(seenByKeyword), keyword);
      ghost var target := Search(old(seenByKeyword), keyword, pages, maxScrollAttempts);
      ghost var others := seenByKeyword;
      UpdateAgain(others, old(seenByKeyword), keyword, seen);
      newTweets := [];
      var scrollAttempt: nat := 0;
      while true
        invariant seenByKeyword == old(seenByKeyword)[keyword := seen]
        invariant scrollAttempt == 0 || scrollAttempt < maxScrollAttempts
        invariant ScrollFrom(Collected(newTweets, seen), pages, scrollAttempt, maxScrollAttempts) == target
        decreases maxScrollAttempts - scrollAttempt
      {
        ScrollUnfold(Collected(newTweets, seen), pages, scrollAttempt, maxScrollAttempts);
        var els := PageAt(pages, scrollAttempt);
        scrollAttempt := scrollAttempt + 1;
        var newInThisPass;
        ghost var seenBefore := seen;
        newTweets, seen, newInThisPass := ScanPass(newTweets, seen, els);
        seenByKeyword := seenByKeyword[keyword := seen];
        UpdateTwice(old(seenByKeyword), keyword, seenBefore, seen);
        if newInThisPass == 0 {
          break;
        }
        if scrollAttempt >= maxScrollAttempts {
          break;
        }
      }
    }
  }

  // ---------------------------------------------------------------------
  // Properties of the seen set
  // ---------------------------------------------------------------------

  function KeysOf(found: seq<Found>): set<string> {
    set i | 0 <= i < |found| :: Key(found[i])
  }

  /** The invariant of a call that started from seen set `s0`: the seen set is
      `s0` plus the keys collected, none of which was in `s0`, and no two
      collected tweets share a key. */
  predicate Fresh(st: Collected, s0: set<string>) {
    st.seen == s0 + KeysOf(st.found)
    && (forall i :: 0 <= i < |st.found| ==> Key(st.found[i]) !in s0)
    && (forall i, j :: 0 <= i < j < |st.found| ==> Key(st.found[i]) != Key(st.found[j]))
  }

  lemma KeysOfSnoc(found: seq<Found>, f: Found)
    ensures KeysOf(found + [f]) == KeysOf(found) + {Key(f)}
  {
    var a := found + [f];
    forall k | k in KeysOf(a) ensures k in KeysOf(found) + {Key(f)} {
      var i :| 0 <= i < |a| && Key(a[i]) == k;
      if i < |found| { assert a[i] == found[i]; }
    }
    forall k | k in KeysOf(found) + {Key(f)} ensures k in KeysOf(a) {
      if k in KeysOf(found) {
        var i :| 0 <= i < |found| && Key(found[i]) == k;
        assert a[i] == found[i];
      } else {
        assert a[|found|] == f;
      }
    }
  }

  /** Adding a key not yet seen keeps the invariant. */
  lemma AddFresh(st: Collected, f: Found, s0: set<string>)
    requires Fresh(st, s0) && Key(f) !in st.seen
    ensures Fresh(Collected(st.found + [f], st.seen + {Key(f)}), s0)
  {
    var a := st.found + [f];
    KeysOfSnoc(st.found, f);
    forall i | 0 <= i < |st.found| ensures Key(st.found[i]) != Key(f) {
      assert Key(st.found[i]) in KeysOf(st.found);
    }
    forall i | 0 <= i < |a| ensures Key(a[i]) !in s0 {
      if i < |st.found| { assert a[i] == st.found[i]; }
    }
    forall i, j | 0 <= i < j < |a| ensures Key(a[i]) != Key(a[j]) {
      assert a[i] == st.found[i];
      if j < |st.found| { assert a[j] == st.found[j]; }
    }
  }

  lemma VisitFresh(st: Collected, e: Element, s0: set<string>)
    requires Fresh(st, s0)
    ensures Fresh(Visit(st, e), s0)
    ensures st.seen <= Visit(st, e).seen
  {
    var f := Extract(e);
    if f.Some? && Key(f.value) !in st.seen {
      AddFresh(st, f.value, s0);
    }
  }

  lemma {:induction false} VisitAllFresh(st: Collected, els: seq<Element>, s0: set<string>)
    requires Fresh(st, s0)
    ensures Fresh(VisitAll(st, els), s0)
    ensures st.seen <= VisitAll(st, els).seen
    decreases |els|
  {
    if els != [] {
      VisitFresh(st, els[0], s0);
      VisitAllFresh(Visit(st, els[0]), els[1..], s0);
    }
  }

  lemma {:induction false} ScrollFresh(st: Collected, pages: seq<seq<Element>>, k: nat, max: int, s0: set<string>)
    requires Fresh(st, s0)
    ensures Fresh(ScrollFrom(st, pages, k, max).collected, s0)
    decreases max - k
  {
    var next := VisitAll(st, PageAt(pages, k));
    VisitAllFresh(st, PageAt(pages, k), s0);
    if !(|next.found| == |st.found| || k + 1 >= max) {
      ScrollFresh(next, pages, k + 1, max, s0);
    }
  }

  /** One call: the returned tweets' keys were not seen before, are
      pairwise distinct, and the keyword's seen set afterwards is the old
      one plus exactly those keys (so it only grows). */
  lemma SearchFresh(seenByKeyword: map<string, set<string>>, keyword: string, pages: seq<seq<Element>>, max: int)
    ensures var o := Search(seenByKeyword, keyword, pages, max);
            var s0 := SeenFor(seenByKeyword, keyword);
            && o.collected.seen == s0 + KeysOf(o.collected.found)
            && (forall i :: 0 <= i < |o.collected.found| ==> Key(o.collected.found[i]) !in s0)
            && (forall i, j :: 0 <= i < j < |o.collected.found| ==> Key(o.collected.found[i]) != Key(o.collected.found[j]))
  {
    ScrollFresh(Collected([], SeenFor(seenByKeyword, keyword)), pages, 0, max, SeenFor(seenByKeyword, keyword));
  }

  /** Two calls for the same keyword never return the same key, whatever
      the pages show and whatever calls for other keywords happen between
      them. */
  lemma NoRepeatAcrossCalls(m: map<string, set<string>>, keyword: string, pages1: seq<seq<Element>>, max1: int,
                            other: map<string, set<string>>, pages2: seq<seq<Element>>, max2: int, i: nat, j: nat)
    requires var o1 := Search(m, keyword, pages1, max1);
             SeenFor(other, keyword) == o1.collected.seen
             && i < |o1.collected.found| && j < |Search(other, keyword, pages2, max2).collected.found|
    ensures Key(Search(m, keyword, pages1, max1).collected.found[i]) != Key(Search(other, keyword, pages2, max2).collected.found[j])
  {
    var o1 := Search(m, keyword, pages1, max1);
    SearchFresh(m, keyword, pages1, max1);
    SearchFresh(other, keyword, pages2, max2);
    assert Key(o1.collected.found[i]) in KeysOf(o1.collected.found);
  }
}
