/** Array slicing as JavaScript does it, and the page windows the comment
    services cut from a scrape. */
module Paging {

  function Min(a: int, b: int): int {
    if a <= b then a else b
  }

  /** How `Array.prototype.slice` resolves one bound against length `n`:
      a negative bound counts from the end, and both are clamped to [0, n]. */
  function Bound(i: int, n: nat): (r: nat)
    ensures r <= n
    ensures 0 <= i ==> r == Min(i, n)
    ensures i < 0 && n + i >= 0 ==> r == n + i
    ensures n + i < 0 ==> r == 0
  {
    if i < 0 then (if n + i < 0 then 0 else n + i) else Min(i, n)
  }

  /** `s.slice(start, end)`: empty when the resolved end is not past the
      resolved start. */
  function JsSlice<T>(s: seq<T>, start: int, end: int): (r: seq<T>)
    ensures Bound(start, |s|) <= Bound(end, |s|) ==> r == s[Bound(start, |s|)..Bound(end, |s|)]
    ensures Bound(end, |s|) < Bound(start, |s|) ==> r == []
  {
    var a, b := Bound(start, |s|), Bound(end, |s|);
    if a <= b then s[a..b] else []
  }

  /** `s.slice(0, max)`: the first `max` entries, so never more than `max`
      of them and always a prefix. */
  function Truncate<T>(s: seq<T>, max: int): (r: seq<T>)
    ensures 0 <= max ==> |r| == Min(max, |s|) && r == s[..Min(max, |s|)]
    ensures |r| <= |s| && r == s[..|r|]
  {
    JsSlice(s, 0, max)
  }

  /** Page `page` of size `size`: the scrape is first cut to `page * size`
      entries, then the window from `(page - 1) * size` of length `size`
      is taken from that. */
  function Window<T>(scraped: seq<T>, size: int, page: int): seq<T> {
    var all := Truncate(scraped, page * size);
    var start := (page - 1) * size;
    JsSlice(all, start, start + size)
  }

  /** For a positive page number and a non-negative size, the page is the
      half-open range [(page - 1) * size, page * size) of the scrape,
      clamped to its length. */
  lemma WindowRange<T>(scraped: seq<T>, size: int, page: int)
    requires 0 <= size && 1 <= page
    ensures Window(scraped, size, page) == scraped[Min((page - 1) * size, |scraped|)..Min(page * size, |scraped|)]
  {
    var end := page * size;
    var start := (page - 1) * size;
    PageArithmetic(size, page);
    var all := Truncate(scraped, end);
    var n := Min(end, |scraped|);
    assert all == scraped[..n];
    assert Bound(start, n) == Min(start, |scraped|);
    assert Bound(start + size, n) == n;
  }

  lemma PageArithmetic(size: int, page: int)
    requires 0 <= size && 1 <= page
    ensures 0 <= (page - 1) * size && (page - 1) * size + size == page * size
  {
  }

  /** A page is empty exactly when the scrape ends at or before its first
      index (the services then return `[]` without classifying anything). */
  lemma WindowEmptyIff<T>(scraped: seq<T>, size: int, page: int)
    requires 0 <= size && 1 <= page
    ensures Window(scraped, size, page) == [] <==> size == 0 || |scraped| <= (page - 1) * size
  {
    WindowRange(scraped, size, page);
    PageArithmetic(size, page);
  }

  /** Pages 1 to `k`, one after the other. */
  function Pages<T>(scraped: seq<T>, size: int, k: nat): seq<T> {
    if k == 0 then [] else Pages(scraped, size, k - 1) + Window(scraped, size, k)
  }

  /** Consecutive pages tile the scrape: pages 1 to `k` together are its
      first `k * size` entries, with nothing skipped or repeated. */
  lemma {:induction false} PagesTile<T>(scraped: seq<T>, size: int, k: nat)
    requires 0 <= size
    ensures Pages(scraped, size, k) == scraped[..Min(k * size, |scraped|)]
  {
    if k > 0 {
      PagesTile(scraped, size, k - 1);
      WindowRange(scraped, size, k);
      PageArithmetic(size, k);
      var a, b := Min((k - 1) * size, |scraped|), Min(k * size, |scraped|);
      assert Pages(scraped, size, k) == scraped[..a] + scraped[a..b];
      PrefixThenRange(scraped, a, b);
    }
  }

  lemma PrefixThenRange<T>(s: seq<T>, a: nat, b: nat)
    requires a <= b <= |s|
    ensures s[..a] + s[a..b] == s[..b]
  {
  }
}
