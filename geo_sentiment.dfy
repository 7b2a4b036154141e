/** The district-level aggregation of src/services/geoSentimentService.js:
    locating a tweet in a district of the gazetteer, per-district counters,
    the heat map, the anti-national alert log and its summary. */
module GeoSentiment {
  import opened Wrappers
  import opened JsText
  import opened Districts
  import AT = AiThreat
  import Severity

  // ------------------------------------------------------------ the locator

  /** The names a district is matched by: its keywords, or its neighbours. */
  function Names(d: District, neighbours: bool): seq<string> {
    if neighbours then d.neighboring else d.keywords
  }

  /** Some keyword (or neighbour), lower-cased, occurs in `text`. */
  predicate Hit(d: District, text: string, neighbours: bool) {
    exists k :: 0 <= k < |Names(d, neighbours)| && Contains(text, ToLower(Names(d, neighbours)[k]))
  }

  /** The first entry at or after `from`, in table order, with a hit. */
  function FirstHit(t: seq<District>, text: string, neighbours: bool, from: nat): (r: Option<nat>)
    requires from <= |t|
    ensures r.Some? ==> from <= r.value < |t| && Hit(t[r.value], text, neighbours) &&
                        forall j :: from <= j < r.value ==> !Hit(t[j], text, neighbours)
    ensures r.None? ==> forall j :: from <= j < |t| ==> !Hit(t[j], text, neighbours)
    decreases |t| - from
  {
    if from == |t| then None
    else if Hit(t[from], text, neighbours) then Some(from)
    else FirstHit(t, text, neighbours, from + 1)
  }

  /** The district a lower-cased text names: the first entry with a keyword
      in the text; only when there is none, the first entry with a
      neighbour in the text; else none. */
  function Locate(t: seq<District>, text: string): (r: Option<string>)
    ensures r.Some? ==> exists i :: 0 <= i < |t| && t[i].name == r.value
    ensures r.None? <==> forall i :: 0 <= i < |t| ==> !Hit(t[i], text, false) && !Hit(t[i], text, true)
  {
    match FirstHit(t, text, false, 0)
    case Some(i) => Some(t[i].name)
    case None =>
      match FirstHit(t, text, true, 0)
      case Some(i) => Some(t[i].name)
      case None => None
  }

  /** The entry with the first keyword hit wins, whatever comes later. */
  lemma LocateKeywordFirst(t: seq<District>, text: string, i: nat)
    requires i < |t| && Hit(t[i], text, false)
    requires forall j :: 0 <= j < i ==> !Hit(t[j], text, false)
    ensures Locate(t, text) == Some(t[i].name)
  {
  }

  /** Neighbours are consulted only when no keyword matches anywhere. */
  lemma LocateNeighbourFallback(t: seq<District>, text: string, i: nat)
    requires forall j :: 0 <= j < |t| ==> !Hit(t[j], text, false)
    requires i < |t| && Hit(t[i], text, true)
    requires forall j :: 0 <= j < i ==> !Hit(t[j], text, true)
    ensures Locate(t, text) == Some(t[i].name)
  {
  }

  /** A text holding some entry's keyword resolves, by keyword, to that entry
      or to one declared before it. */
  lemma LocateNoLaterThan(t: seq<District>, text: string, i: nat, k: nat)
    requires i < |t| && k < |t[i].keywords| && Contains(text, ToLower(t[i].keywords[k]))
    ensures exists j :: 0 <= j <= i && Hit(t[j], text, false) && Locate(t, text) == Some(t[j].name)
  {
    assert Hit(t[i], text, false) by { assert Names(t[i], false)[k] == t[i].keywords[k]; }
    var f := FirstHit(t, text, false, 0);
    assert f.Some? && f.value <= i;
  }

  /** A neighbour that is also some entry's keyword never reaches the
      fallback: a text naming it is decided by the keyword pass. */
  lemma ShadowedNeighbour(t: seq<District>, text: string, i: nat, k: nat, j: nat, m: nat)
    requires i < |t| && k < |t[i].neighboring| && Contains(text, ToLower(t[i].neighboring[k]))
    requires j < |t| && m < |t[j].keywords| && ToLower(t[i].neighboring[k]) == ToLower(t[j].keywords[m])
    ensures FirstHit(t, text, false, 0).Some?
    ensures Locate(t, text) == Some(t[FirstHit(t, text, false, 0).value].name)
  {
    assert Hit(t[j], text, false) by { assert Names(t[j], false)[m] == t[j].keywords[m]; }
  }

  /** `extractDistrictFromTweet`: the text and the location, joined by a
      space and lower-cased, located in the gazetteer. */
  function ExtractDistrict(tweetText: string, location: string): (r: Option<string>)
    ensures r.Some? ==> exists i :: 0 <= i < |MpDistricts()| && MpDistricts()[i].name == r.value
  {
    Locate(MpDistricts(), ToLower(tweetText + " " + location))
  }

  /** One pass of the locator: the entries in order, each entry's names in
      order, stopping at the first one the text holds. */
  method ScanTable(t: seq<District>, text: string, neighbours: bool) returns (r: Option<nat>)
    ensures r == FirstHit(t, text, neighbours, 0)
  {
    var i := 0;
    while i < |t|
      invariant 0 <= i <= |t|
      invariant FirstHit(t, text, neighbours, i) == FirstHit(t, text, neighbours, 0)
    {
      var names := Names(t[i], neighbours);
      var k := 0;
      while k < |names|
        invariant 0 <= k <= |names|
        invariant forall m :: 0 <= m < k ==> !Contains(text, ToLower(names[m]))
      {
        if Contains(text, ToLower(names[k])) {
          assert Hit(t[i], text, neighbours);
          return Some(i);
        }
        k := k + 1;
      }
      i := i + 1;
    }
    return None;
  }

  /** The locator as the source runs it: the keyword pass, then the
      neighbour pass. */
  method ExtractDistrictFromTweet(tweetText: string, location: string) returns (r: Option<string>)
    ensures r == ExtractDistrict(tweetText, location)
  {
    var text := ToLower(tweetText + " " + location);
    var byKeyword := ScanTable(MpDistricts(), text, false);
    match byKeyword {
      case Some(i) => return Some(MpDistricts()[i].name);
      case None =>
    }
    var byNeighbour := ScanTable(MpDistricts(), text, true);
    match byNeighbour {
      case Some(i) => return Some(MpDistricts()[i].name);
      case None =>
    }
    return None;
  }

  // ------------------------------------------------------- facts of the table

  /** Bhopal is declared first, so any text naming it resolves to it, even
      one that also names Indore. */
  lemma TableOrderBreaksTies(tweetText: string, location: string)
    requires Contains(ToLower(tweetText + " " + location), "bhopal")
    ensures ExtractDistrict(tweetText, location) == Some("Bhopal")
  {
    var d := MpDistricts()[0];
    assert d == Part0(0);
    assert ToLower(d.keywords[0]) == "bhopal";
    assert Hit(d, ToLower(tweetText + " " + location), false) by {
      assert Names(d, false)[0] == d.keywords[0];
    }
    LocateKeywordFirst(MpDistricts(), ToLower(tweetText + " " + location), 0);
  }

  /** Short keywords match inside longer words: any text holding "dhar",
      such as "aadhar", resolves to Dhar or to a district
      declared before it. */
  lemma DharInsideWords(tweetText: string, location: string)
    requires Contains(ToLower(tweetText + " " + location), "dhar")
    ensures exists j :: 0 <= j <= 33 && ExtractDistrict(tweetText, location) == Some(MpDistricts()[j].name)
  {
    assert MpDistricts()[33] == Part6(3);
    assert MpDistricts()[33].name == "Dhar" && ToLower(MpDistricts()[33].keywords[0]) == "dhar";
    LocateNoLaterThan(MpDistricts(), ToLower(tweetText + " " + location), 33, 0);
  }

  /** Ujjain lists Indore as a neighbour, and Indore's own keyword is the
      same name in lower case; by `ShadowedNeighbour` that neighbour entry
      is never the one a text resolves through. */
  lemma UjjainNeighbourIsIndore()
    ensures MpDistricts()[4].name == "Ujjain" && MpDistricts()[1].name == "Indore"
    ensures |MpDistricts()[4].neighboring| > 0 && |MpDistricts()[1].keywords| > 0
    ensures ToLower(MpDistricts()[4].neighboring[0]) == ToLower(MpDistricts()[1].keywords[0])
  {
    assert MpDistricts()[4] == Part0(4);
    assert MpDistricts()[1] == Part0(1);
  }

  /** Tikamgarh and Neemuch list the same neighbour twice. */
  lemma NeighboursRepeat()
    ensures MpDistricts()[41].name == "Tikamgarh" && |MpDistricts()[41].neighboring| == 3 &&
            MpDistricts()[41].neighboring[0] == MpDistricts()[41].neighboring[2]
    ensures MpDistricts()[49].name == "Neemuch" && |MpDistricts()[49].neighboring| == 3 &&
            MpDistricts()[49].neighboring[0] == MpDistricts()[49].neighboring[2]
  {
    assert MpDistricts()[41] == Part8(1);
    assert MpDistricts()[49] == Part9(4);
  }

  // -------------------------------------------------------- the counters

  /** A district's `sentiment` counters.  Incrementing a key that is not one
      of the four keys creates that key holding NaN, kept in `nanLabels`. */
  datatype Counters = Counters(positive: nat, negative: nat, neutral: nat, antiNational: nat, nanLabels: set<string>)

  /** A district's record: its counters, `totalTweets`, and the number of
      HIGH alerts pushed on its own `alerts` list. */
  datatype DistrictStats = DistrictStats(sentiment: Counters, totalTweets: nat, highAlerts: nat)

  const Fresh := DistrictStats(Counters(0, 0, 0, 0, {}), 0, 0)

  /** The four counters together. */
  function Tally(c: Counters): nat {
    c.positive + c.negative + c.neutral + c.antiNational
  }

  /** The denominator of the heat map: the three sentiment counters, without
      the anti-national one. */
  function Scored(c: Counters): nat {
    c.positive + c.negative + c.neutral
  }

  predicate IsCounterKey(key: string) {
    key == "positive" || key == "negative" || key == "neutral" || key == "anti_national"
  }

  /** `district.sentiment[key]++`. */
  function Bump(c: Counters, key: string): (r: Counters)
    ensures IsCounterKey(key) ==> Tally(r) == Tally(c) + 1 && r.nanLabels == c.nanLabels
    ensures !IsCounterKey(key) ==> Tally(r) == Tally(c) && r.nanLabels == c.nanLabels + {key}
    ensures r.positive >= c.positive && r.negative >= c.negative && r.neutral >= c.neutral && r.antiNational >= c.antiNational
  {
    if key == "positive" then c.(positive := c.positive + 1)
    else if key == "negative" then c.(negative := c.negative + 1)
    else if key == "neutral" then c.(neutral := c.neutral + 1)
    else if key == "anti_national" then c.(antiNational := c.antiNational + 1)
    else c.(nanLabels := c.nanLabels + {key})
  }

  /** One `updateDistrictSentiment` on a known district's record. */
  function Update(s: DistrictStats, key: string, flagged: bool): (r: DistrictStats)
    ensures r.totalTweets == s.totalTweets + 1
    ensures r.highAlerts == s.highAlerts + (if flagged then 1 else 0)
    ensures flagged ==> r.sentiment == s.sentiment.(antiNational := s.sentiment.antiNational + 1)
    ensures !flagged && IsCounterKey(key) ==> Tally(r.sentiment) == Tally(s.sentiment) + 1
  {
    DistrictStats(if flagged then s.sentiment.(antiNational := s.sentiment.antiNational + 1) else Bump(s.sentiment, key),
                  s.totalTweets + 1,
                  if flagged then s.highAlerts + 1 else s.highAlerts)
  }

  /** The whole table after `updateDistrictSentiment`: an unknown name
      changes nothing. */
  function Updated(data: map<string, DistrictStats>, name: string, key: string, flagged: bool): (r: map<string, DistrictStats>)
    ensures r.Keys == data.Keys
    ensures forall n :: n in data && n != name ==> r[n] == data[n]
  {
    if name in data then data[name := Update(data[name], key, flagged)] else data
  }

  /** No counter of `s` is above its value in `t`. */
  predicate Grown(s: DistrictStats, t: DistrictStats) {
    t.totalTweets >= s.totalTweets &&
    t.sentiment.positive >= s.sentiment.positive && t.sentiment.negative >= s.sentiment.negative &&
    t.sentiment.neutral >= s.sentiment.neutral && t.sentiment.antiNational >= s.sentiment.antiNational
  }

  /** Counters never go down, and a known district's total grows by one. */
  lemma UpdateMonotone(data: map<string, DistrictStats>, name: string, key: string, flagged: bool)
    ensures forall n :: n in data ==> Grown(data[n], Updated(data, name, key, flagged)[n])
    ensures name in data ==> Updated(data, name, key, flagged)[name].totalTweets == data[name].totalTweets + 1
  {
  }

  /** On a known district, exactly one of the four counters moves when the
      key is a counter key or the record is flagged; any other key
      leaves them all and turns into a NaN entry. */
  lemma {:induction false} ExactlyOneCounter(s: DistrictStats, key: string, flagged: bool)
    ensures flagged || IsCounterKey(key) ==> Tally(Update(s, key, flagged).sentiment) == Tally(s.sentiment) + 1
    ensures !flagged && !IsCounterKey(key) ==>
      Tally(Update(s, key, flagged).sentiment) == Tally(s.sentiment) &&
      key in Update(s, key, flagged).sentiment.nanLabels
  {
  }

  /** The AI path passes the key "anti_national" unflagged when the second
      verdict raises no alert: the anti-national counter still moves, but
      no district alert is pushed. */
  lemma AntiNationalWithoutAlert(s: DistrictStats)
    ensures Update(s, "anti_national", false).sentiment.antiNational == s.sentiment.antiNational + 1
    ensures Update(s, "anti_national", false).highAlerts == s.highAlerts
  {
  }

  // ---------------------------------------------------------- the heat map

  /** `heatIntensity`, in tenths, for a district with `Scored > 0`: the
      ratio and score comparisons cross-multiplied by the denominator. */
  function Intensity(c: Counters): (r: nat)
    requires Scored(c) > 0
    ensures r == 10 || r == 8 || r == 7 || r == 5 || r == 2
  {
    var s := Scored(c);
    var score := c.positive as int - c.negative as int;
    if 10 * c.antiNational > s then 10
    else if 20 * c.antiNational > s then 8
    else if 10 * score > 3 * s then 2
    else if 10 * score < -3 * s then 7
    else 5
  }

  /** The same banding with the source's divisions, over the reals. */
  function IntensityByRatio(c: Counters): real
    requires Scored(c) > 0
  {
    var ratio := c.antiNational as real / Scored(c) as real;
    var score := (c.positive as real - c.negative as real) / Scored(c) as real;
    if ratio > 0.1 then 1.0
    else if ratio > 0.05 then 0.8
    else if score > 0.3 then 0.2
    else if score < -0.3 then 0.7
    else 0.5
  }

  lemma DivGreater(a: real, s: real, b: real)
    requires s > 0.0
    ensures a / s > b <==> a > b * s
  {
    assert a / s * s == a;
    if a / s > b {
      assert a / s * s > b * s;
    }
    if a > b * s {
      assert a / s * s > b * s;
    }
  }

  lemma DivLess(a: real, s: real, b: real)
    requires s > 0.0
    ensures a / s < b <==> a < b * s
  {
    assert a / s * s == a;
    if a / s < b {
      assert a / s * s < b * s;
    }
    if a < b * s {
      assert a / s * s < b * s;
    }
  }

  /** The integer banding is exactly the banding by ratios. */
  lemma IntensityMatchesRatios(c: Counters)
    requires Scored(c) > 0
    ensures Intensity(c) as real / 10.0 == IntensityByRatio(c)
  {
    var s := Scored(c) as real;
    DivGreater(c.antiNational as real, s, 0.1);
    DivGreater(c.antiNational as real, s, 0.05);
    DivGreater(c.positive as real - c.negative as real, s, 0.3);
    DivLess(c.positive as real - c.negative as real, s, -0.3);
  }

  /** One more anti-national record never cools a district. */
  lemma ThreatNeverCools(c: Counters)
    requires Scored(c) > 0
    ensures Intensity(c.(antiNational := c.antiNational + 1)) >= Intensity(c)
  {
  }

  /** The colours of the heat map, coldest first. */
  const Palette: seq<string> := ["#90EE90", "#FFFF00", "#FFA500", "#FF4500", "#FF0000"]

  /** A colour's place on the palette, coldest 0. */
  function Warmth(color: string): nat {
    if color == "#90EE90" then 0 else if color == "#FFFF00" then 1 else if color == "#FFA500" then 2
    else if color == "#FF4500" then 3 else 4
  }

  /** `getHeatMapColor` as written, in tenths, with the ratio tests
      cross-multiplied by the denominator `s`. */
  function ColorAsWritten(intensity: nat, antiNational: nat, s: nat): (r: string)
    ensures r in Palette || r == "#00FF00"
    ensures 10 * antiNational > s ==> r == "#FF0000"
  {
    if 10 * antiNational > s then "#FF0000"
    else if 20 * antiNational > s then "#FF4500"
    else if intensity > 7 then "#00FF00"
    else if intensity > 5 then "#90EE90"
    else if intensity > 3 then "#FFFF00"
    else if intensity > 1 then "#FFA500"
    else "#FF0000"
  }

  /** As written, a district whose sentiment is mostly negative is painted
      light green and one mostly positive orange: the negative one comes out
      colder. */
  lemma NegativePaintedColder(neg: Counters, pos: Counters)
    requires Scored(neg) > 0 && Scored(pos) > 0
    requires Intensity(neg) == 7 && Intensity(pos) == 2
    ensures ColorAsWritten(Intensity(neg), neg.antiNational, Scored(neg)) == "#90EE90"
    ensures ColorAsWritten(Intensity(pos), pos.antiNational, Scored(pos)) == "#FFA500"
    ensures Warmth(ColorAsWritten(Intensity(neg), neg.antiNational, Scored(neg))) <
            Warmth(ColorAsWritten(Intensity(pos), pos.antiNational, Scored(pos)))
  {
  }

  /** One district that shows it: 1 positive, 9 negative. */
  lemma NegativeExample()
    ensures Intensity(Counters(1, 9, 0, 0, {})) == 7
    ensures ColorAsWritten(7, 0, 10) == "#90EE90"
  {
  }

  /** The colour of each band, as the band comments describe it: the hotter
      the band, the warmer the colour. */
  function HeatColor(intensity: nat): (r: string)
    ensures r in Palette
  {
    if intensity >= 10 then "#FF0000"
    else if intensity >= 8 then "#FF4500"
    else if intensity >= 7 then "#FFA500"
    else if intensity >= 5 then "#FFFF00"
    else "#90EE90"
  }

  /** Across the bands, a hotter band always gets a strictly warmer colour. */
  lemma HeatColorMonotone(a: nat, b: nat)
    requires a in {2, 5, 7, 8, 10} && b in {2, 5, 7, 8, 10} && a < b
    ensures Warmth(HeatColor(a)) < Warmth(HeatColor(b))
  {
  }

  /** The corrected table agrees with the source on the threat bands and the
      neutral band, and differs only on the two swapped ones. */
  lemma HeatColorAgrees(c: Counters)
    requires Scored(c) > 0
    ensures Intensity(c) != 7 && Intensity(c) != 2 ==>
      HeatColor(Intensity(c)) == ColorAsWritten(Intensity(c), c.antiNational, Scored(c))
    ensures Intensity(c) == 7 ==> HeatColor(7) == "#FFA500"
    ensures Intensity(c) == 2 ==> HeatColor(2) == "#90EE90"
  {
  }

  /** One row of the heat map. */
  datatype HeatEntry = HeatEntry(name: string, sentiment: Counters, totalTweets: nat, intensity: nat, color: string)

  /** The row of a district with `Scored > 0`. */
  function Row(name: string, s: DistrictStats): (r: HeatEntry)
    requires Scored(s.sentiment) > 0
    ensures r.name == name && r.sentiment == s.sentiment && r.totalTweets == s.totalTweets
    ensures r.intensity in {10, 8, 7, 5, 2} && r.color in Palette
  {
    HeatEntry(name, s.sentiment, s.totalTweets, Intensity(s.sentiment), HeatColor(Intensity(s.sentiment)))
  }

  /** The rows pushed, in district order, before the sort. */
  function Pushed(order: seq<string>, data: map<string, DistrictStats>): (r: seq<HeatEntry>)
    ensures |r| <= |order|
    ensures forall k :: 0 <= k < |r| ==> r[k].name in order && r[k].name in data &&
                                         Scored(data[r[k].name].sentiment) > 0 &&
                                         r[k] == Row(r[k].name, data[r[k].name])
  {
    if order == [] then []
    else
      var name := order[|order| - 1];
      var earlier := Pushed(order[..|order| - 1], data);
      if name in data && Scored(data[name].sentiment) > 0 then earlier + [Row(name, data[name])] else earlier
  }

  /** A district has a row iff it is listed, known and `Scored > 0`: a
      district whose records were all flagged has none. */
  lemma {:induction false} PushedExactly(order: seq<string>, data: map<string, DistrictStats>, name: string)
    ensures (exists k :: 0 <= k < |Pushed(order, data)| && Pushed(order, data)[k].name == name) <==>
            name in order && name in data && Scored(data[name].sentiment) > 0
  {
    if order != [] {
      var front := order[..|order| - 1];
      PushedExactly(front, data, name);
      assert order == front + [order[|order| - 1]];
      var r := Pushed(order, data);
      var e := Pushed(front, data);
      if name in order && name in data && Scored(data[name].sentiment) > 0 {
        if name == order[|order| - 1] {
          assert r[|r| - 1].name == name;
        } else {
          assert name in front;
          var k :| 0 <= k < |e| && e[k].name == name;
          assert r[k] == e[k];
        }
      }
    }
  }

  /** Places `row` after every row at least as hot, keeping the order of
      the others. */
  function Insert(sorted: seq<HeatEntry>, row: HeatEntry): (r: seq<HeatEntry>)
    ensures |r| == |sorted| + 1
  {
    if sorted == [] || sorted[|sorted| - 1].intensity >= row.intensity then sorted + [row]
    else Insert(sorted[..|sorted| - 1], row) + [sorted[|sorted| - 1]]
  }

  /** `sort((a, b) => b.heatIntensity - a.heatIntensity)`: a stable sort,
      hottest first, rows of equal intensity in pushed order. */
  function SortByIntensity(rows: seq<HeatEntry>): (r: seq<HeatEntry>)
    ensures |r| == |rows|
  {
    if rows == [] then [] else Insert(SortByIntensity(rows[..|rows| - 1]), rows[|rows| - 1])
  }

  predicate NonIncreasing(rows: seq<HeatEntry>) {
    forall i, j :: 0 <= i < j < |rows| ==> rows[i].intensity >= rows[j].intensity
  }

  lemma {:induction false} InsertPermutes(sorted: seq<HeatEntry>, row: HeatEntry)
    ensures multiset(Insert(sorted, row)) == multiset(sorted) + multiset{row}
  {
    if sorted != [] && sorted[|sorted| - 1].intensity < row.intensity {
      var front := sorted[..|sorted| - 1];
      assert sorted == front + [sorted[|sorted| - 1]];
      InsertPermutes(front, row);
    }
  }

  lemma {:induction false} InsertSorted(sorted: seq<HeatEntry>, row: HeatEntry)
    requires NonIncreasing(sorted)
    ensures NonIncreasing(Insert(sorted, row))
  {
    if sorted != [] && sorted[|sorted| - 1].intensity < row.intensity {
      var front, last := sorted[..|sorted| - 1], sorted[|sorted| - 1];
      InsertSorted(front, row);
      InsertPermutes(front, row);
      var r := Insert(front, row);
      forall k | 0 <= k < |r| ensures r[k].intensity >= last.intensity {
        assert r[k] in multiset(r);
        if r[k] != row {
          assert r[k] in multiset(front);
          var m :| 0 <= m < |front| && front[m] == r[k];
          assert sorted[m] == front[m];
        }
      }
      assert Insert(sorted, row) == r + [last];
    }
  }

  /** The heat map's order: hottest first, holding exactly the pushed rows. */
  lemma {:induction false} SortSpec(rows: seq<HeatEntry>)
    ensures NonIncreasing(SortByIntensity(rows))
    ensures multiset(SortByIntensity(rows)) == multiset(rows)
  {
    if rows != [] {
      var front := rows[..|rows| - 1];
      SortSpec(front);
      InsertSorted(SortByIntensity(front), rows[|rows| - 1]);
      InsertPermutes(SortByIntensity(front), rows[|rows| - 1]);
      assert rows == front + [rows[|rows| - 1]];
    }
  }

  /** `getDistrictSentimentHeatMap`. */
  function HeatMap(order: seq<string>, data: map<string, DistrictStats>): (r: seq<HeatEntry>)
    ensures |r| == |Pushed(order, data)| <= |order|
    ensures forall e :: e in r ==> e in Pushed(order, data)
  {
    var rows := Pushed(order, data);
    SortSpec(rows);
    assert forall e :: e in SortByIntensity(rows) ==> e in multiset(rows);
    SortByIntensity(rows)
  }

  /** The heat map holds exactly the pushed rows, hottest first. */
  lemma HeatMapSorted(order: seq<string>, data: map<string, DistrictStats>)
    ensures NonIncreasing(HeatMap(order, data))
    ensures multiset(HeatMap(order, data)) == multiset(Pushed(order, data))
  {
    SortSpec(Pushed(order, data));
  }

  // --------------------------------------------------- the alert log

  /** An entry of `antiNationalAlerts`; the id and the creation time come
      from the clock and the random generator and are left out. */
  datatype Alert = Alert(tweetText: string, author: string, timestamp: string, location: string,
                         district: Option<string>, severity: string, confidence: real,
                         threats: seq<string>, recommendedAction: Option<string>, status: string)

  /** Whether a verdict raises an alert. */
  predicate Raises(verdict: AT.ThreatReport) {
    verdict.isAntiNational && verdict.severity != "NONE"
  }

  function AlertFor(tweetText: string, author: string, timestamp: string, location: string, verdict: AT.ThreatReport): (r: Alert)
    ensures r.status == "ACTIVE" && r.severity == verdict.severity
    ensures r.district == ExtractDistrict(tweetText, location)
  {
    Alert(tweetText, author, timestamp, location, ExtractDistrict(tweetText, location), verdict.severity,
          verdict.confidence, verdict.threats, verdict.recommendedAction, "ACTIVE")
  }

  /** The alerts matching a test, in log order. */
  function Where(alerts: seq<Alert>, keep: Alert -> bool): (r: seq<Alert>)
    ensures |r| <= |alerts|
    ensures forall k :: 0 <= k < |r| ==> keep(r[k]) && r[k] in alerts
    ensures forall a :: a in alerts && keep(a) ==> a in r
  {
    if alerts == [] then []
    else
      var earlier := Where(alerts[..|alerts| - 1], keep);
      var last := alerts[|alerts| - 1];
      assert alerts == alerts[..|alerts| - 1] + [last];
      if keep(last) then earlier + [last] else earlier
  }

  /** The last ten alerts, newest first (`slice(-10).reverse()`). */
  function Recent(alerts: seq<Alert>): (r: seq<Alert>)
    ensures |r| == if |alerts| < 10 then |alerts| else 10
    ensures forall k :: 0 <= k < |r| ==> r[k] == alerts[|alerts| - 1 - k]
  {
    var n := if |alerts| < 10 then |alerts| else 10;
    seq(n, k requires 0 <= k < n => alerts[|alerts| - 1 - k])
  }

  /** The names of the severity levels, in declaration order. */
  function LevelNames(): (r: seq<string>)
    ensures |r| == |Severity.Levels| && forall i :: 0 <= i < |r| ==> r[i] == Severity.Levels[i].name
  {
    seq(|Severity.Levels|, i requires 0 <= i < |Severity.Levels| => Severity.Levels[i].name)
  }

  datatype Summary = Summary(total: nat, bySeverity: map<string, nat>, byDistrict: map<string, nat>,
                             recent: seq<Alert>, critical: seq<Alert>, active: seq<Alert>)

  /** `getAntiNationalAlertsSummary` as written: counting by severity reads
      `severityLevels`, which the file never imports, so the call always
      throws before a summary is returned. */
  function SummaryAsWritten(alerts: seq<Alert>): (r: Option<Summary>)
    ensures r.None?
  {
    None
  }

  /** The summary once the severity table is imported. */
  function AlertsSummary(alerts: seq<Alert>, order: seq<string>): (r: Summary)
    ensures r.total == |alerts|
    ensures forall l :: l in r.bySeverity <==> l in LevelNames()
    ensures forall n :: n in r.byDistrict <==> n in order
    ensures r.recent == Recent(alerts)
    ensures forall k :: 0 <= k < |r.critical| ==> r.critical[k].severity == "CRITICAL"
    ensures forall a :: a in alerts && a.severity == "CRITICAL" ==> a in r.critical
    ensures forall k :: 0 <= k < |r.active| ==> r.active[k].status == "ACTIVE"
  {
    Summary(|alerts|,
            map l | l in LevelNames() :: |Where(alerts, (a: Alert) => a.severity == l)|,
            map n | n in order :: |Where(alerts, (a: Alert) => a.district == Some(n))|,
            Recent(alerts),
            Where(alerts, (a: Alert) => a.severity == "CRITICAL"),
            Where(alerts, (a: Alert) => a.status == "ACTIVE"))
  }

  /** Every alert the service creates is active, so the `active` list is the
      whole log. */
  lemma {:induction false} AllActive(alerts: seq<Alert>, order: seq<string>)
    requires forall k :: 0 <= k < |alerts| ==> alerts[k].status == "ACTIVE"
    ensures AlertsSummary(alerts, order).active == alerts
  {
    WhereAll(alerts, (a: Alert) => a.status == "ACTIVE");
  }

  lemma {:induction false} WhereAll(alerts: seq<Alert>, keep: Alert -> bool)
    requires forall k :: 0 <= k < |alerts| ==> keep(alerts[k])
    ensures Where(alerts, keep) == alerts
  {
    if alerts != [] {
      WhereAll(alerts[..|alerts| - 1], keep);
      assert alerts == alerts[..|alerts| - 1] + [alerts[|alerts| - 1]];
    }
  }

  /** Filtering one more alert keeps what was kept and adds that alert last
      when it passes. */
  lemma WhereSnoc(alerts: seq<Alert>, a: Alert, keep: Alert -> bool)
    ensures Where(alerts + [a], keep) == Where(alerts, keep) + (if keep(a) then [a] else [])
  {
    assert (alerts + [a])[..|alerts|] == alerts;
  }

  /** The severity of each alert, in log order. */
  function Severities(alerts: seq<Alert>): (r: seq<string>)
    ensures |r| == |alerts| && forall i :: 0 <= i < |r| ==> r[i] == alerts[i].severity
  {
    seq(|alerts|, i requires 0 <= i < |alerts| => alerts[i].severity)
  }

  /** The district of each alert, in log order. */
  function AlertDistricts(alerts: seq<Alert>): (r: seq<Option<string>>)
    ensures |r| == |alerts| && forall i :: 0 <= i < |r| ==> r[i] == alerts[i].district
  {
    seq(|alerts|, i requires 0 <= i < |alerts| => alerts[i].district)
  }

  lemma {:induction false} SeverityWhere(alerts: seq<Alert>, l: string)
    ensures |Where(alerts, (a: Alert) => a.severity == l)| == multiset(Severities(alerts))[l]
  {
    if alerts != [] {
      var init, last := alerts[..|alerts| - 1], alerts[|alerts| - 1];
      assert alerts == init + [last];
      SeverityWhere(init, l);
      WhereSnoc(init, last, (a: Alert) => a.severity == l);
      assert Severities(alerts) == Severities(init) + [last.severity];
    }
  }

  lemma {:induction false} DistrictWhere(alerts: seq<Alert>, n: string)
    ensures |Where(alerts, (a: Alert) => a.district == Some(n))| == multiset(AlertDistricts(alerts))[Some(n)]
  {
    if alerts != [] {
      var init, last := alerts[..|alerts| - 1], alerts[|alerts| - 1];
      assert alerts == init + [last];
      DistrictWhere(init, n);
      WhereSnoc(init, last, (a: Alert) => a.district == Some(n));
      assert AlertDistricts(alerts) == AlertDistricts(init) + [last.district];
    }
  }

  /** The counts of the summary: each severity level counts the alerts of
      that severity, and each district the alerts located in it. */
  lemma SummaryCounts(alerts: seq<Alert>, order: seq<string>)
    ensures var s := AlertsSummary(alerts, order);
      (forall l :: l in LevelNames() ==> s.bySeverity[l] == multiset(Severities(alerts))[l]) &&
      (forall n :: n in order ==> s.byDistrict[n] == multiset(AlertDistricts(alerts))[Some(n)])
  {
    forall l | l in LevelNames() {
      SeverityWhere(alerts, l);
    }
    forall n | n in order {
      DistrictWhere(alerts, n);
    }
  }

  /** Appending an alert: the total grows by one, it heads the recent list,
      its severity's count and its district's count grow by one, and every
      other count stays as it was. */
  lemma SummaryAfterAppend(alerts: seq<Alert>, order: seq<string>, a: Alert)
    requires a.severity in AlertsSummary(alerts, order).bySeverity
    ensures var s, t := AlertsSummary(alerts, order), AlertsSummary(alerts + [a], order);
      t.total == s.total + 1 && t.recent[0] == a &&
      t.bySeverity[a.severity] == s.bySeverity[a.severity] + 1 &&
      (forall l :: l in LevelNames() && l != a.severity ==> t.bySeverity[l] == s.bySeverity[l]) &&
      (forall n :: n in order ==> t.byDistrict[n] == s.byDistrict[n] + (if a.district == Some(n) then 1 else 0))
  {
    assert (alerts + [a])[..|alerts|] == alerts;
    var s, t := AlertsSummary(alerts, order), AlertsSummary(alerts + [a], order);
    forall l | l in LevelNames() && l != a.severity
      ensures t.bySeverity[l] == s.bySeverity[l]
    {
      WhereSnoc(alerts, a, (x: Alert) => x.severity == l);
    }
    forall n | n in order
      ensures t.byDistrict[n] == s.byDistrict[n] + (if a.district == Some(n) then 1 else 0)
    {
      WhereSnoc(alerts, a, (x: Alert) => x.district == Some(n));
    }
  }

  // ---------------------------------------------------- the basic path

  const PositiveWords: seq<string> := ["good", "great", "excellent", "amazing", "wonderful", "अच्छा", "बहुत अच्छा"]
  const NegativeWords: seq<string> := ["bad", "terrible", "awful", "horrible", "worst", "बुरा", "भयानक"]

  /** How many of `words` the text contains. */
  function Matches(words: seq<string>, text: string): (r: nat)
    ensures r <= |words|
  {
    if words == [] then 0
    else Matches(words[..|words| - 1], text) + (if Contains(text, words[|words| - 1]) then 1 else 0)
  }

  /** The word-count sentiment of `processTweetBasic`. */
  function BasicSentiment(text: string): (r: string)
    ensures var p, n := Matches(PositiveWords, ToLower(text)), Matches(NegativeWords, ToLower(text));
      (r == "positive" <==> p > n) && (r == "negative" <==> n > p) && (r == "neutral" <==> p == n)
  {
    var p := Matches(PositiveWords, ToLower(text));
    var n := Matches(NegativeWords, ToLower(text));
    if p > n then "positive" else if n > p then "negative" else "neutral"
  }

  /** A text holding none of the listed words is neutral. */
  lemma {:induction false} NoWordsNeutral(text: string)
    requires forall w :: w in PositiveWords + NegativeWords ==> !Contains(ToLower(text), w)
    ensures BasicSentiment(text) == "neutral"
  {
    NoMatches(PositiveWords, ToLower(text));
    NoMatches(NegativeWords, ToLower(text));
  }

  lemma {:induction false} NoMatches(words: seq<string>, text: string)
    requires forall w :: w in words ==> !Contains(text, w)
    ensures Matches(words, text) == 0
  {
    if words != [] {
      NoMatches(words[..|words| - 1], text);
    }
  }

  /** The tweet fields the service reads. */
  datatype GeoTweet = GeoTweet(text: string, author: string, timestamp: string, location: string)

  datatype BasicResult = BasicResult(district: string, sentiment: string, confidence: nat)

  // --------------------------------------------------------- the AI path

  /** What `processTweet` returns: a located result, or the record saved
      when no district is found. */
  datatype ProcessResult =
    | Located(district: string, sentiment: string, confidence: real, alert: Option<Alert>,
              threatLevel: string, requiresAttention: bool)
    | Unlocated(sentiment: string, threatLevel: string, confidence: real, requiresAttention: bool)

  /** The district the AI path settles on: the verdict's district when it
      names one, else the locator's. */
  function DistrictFor(tweet: GeoTweet, geo: AT.GeoReport): (r: Option<string>)
    ensures geo.district.Some? && geo.district.value != "" ==> r == geo.district
    ensures (geo.district.None? || geo.district.value == "") ==> r == ExtractDistrict(tweet.text, tweet.location)
  {
    match geo.district
    case Some(d) => if d != "" then Some(d) else ExtractDistrict(tweet.text, tweet.location)
    case None => ExtractDistrict(tweet.text, tweet.location)
  }

  /** The record saved without a district. */
  function UnlocatedResult(threat: AT.ThreatReport, geo: AT.GeoReport): (r: ProcessResult)
    ensures r.Unlocated? && r.requiresAttention == threat.isAntiNational
    ensures r.sentiment != []
    ensures r.threatLevel == (if threat.isAntiNational then threat.severity else "NONE")
  {
    Unlocated(if geo.sentiment != "" then geo.sentiment else "neutral",
              if threat.isAntiNational then threat.severity else "NONE",
              if geo.confidence != 0.0 then geo.confidence else threat.confidence,
              threat.isAntiNational)
  }

  /** The counter key of the AI path. */
  function LabelFor(threat: AT.ThreatReport, geo: AT.GeoReport): (r: string)
    ensures threat.isAntiNational ==> r == "anti_national"
    ensures !threat.isAntiNational ==> r == geo.sentiment
  {
    if threat.isAntiNational then "anti_national" else geo.sentiment
  }

  // ------------------------------------------------------- the statistics

  /** `riskLevel` of `getDistrictStatistics`. */
  function RiskLevel(antiNational: nat): (r: string)
    ensures r == "HIGH" <==> antiNational > 5
    ensures r == "MEDIUM" <==> 2 < antiNational <= 5
    ensures r == "LOW" <==> antiNational <= 2
  {
    if antiNational > 5 then "HIGH" else if antiNational > 2 then "MEDIUM" else "LOW"
  }

  /** The districts `getDistrictStatistics` reports, with their risk
      levels: only those with `Scored > 0`. */
  function RiskLevels(data: map<string, DistrictStats>): (r: map<string, string>)
    ensures forall n :: n in r <==> n in data && Scored(data[n].sentiment) > 0
    ensures forall n :: n in r ==> r[n] == RiskLevel(data[n].sentiment.antiNational)
  {
    map n | n in data && Scored(data[n].sentiment) > 0 :: RiskLevel(data[n].sentiment.antiNational)
  }

  /** The risk level rises with the anti-national count. */
  lemma RiskMonotone(a: nat, b: nat)
    requires a <= b
    ensures RiskLevel(a) == "HIGH" ==> RiskLevel(b) == "HIGH"
    ensures RiskLevel(b) == "LOW" ==> RiskLevel(a) == "LOW"
  {
  }

  // ------------------------------------------------------------ the service

  /** The districts in table order, the order `Object.values` visits them. */
  function Order(): (r: seq<string>)
    ensures |r| == |MpDistricts()| && forall i :: 0 <= i < |r| ==> r[i] == MpDistricts()[i].name
  {
    seq(|MpDistricts()|, i requires 0 <= i < |MpDistricts()| => MpDistricts()[i].name)
  }

  /** `GeoSentimentService`: the per-district records and the alert log. */
  class GeoSentimentService {
    var data: map<string, DistrictStats>
    var alerts: seq<Alert>

    /** `initializeDistrictData`: every district zeroed, no alerts. */
    constructor()
      ensures data == map n | n in Order() :: Fresh
      ensures alerts == []
    {
      data := map n | n in Order() :: Fresh;
      alerts := [];
    }

    /** `updateDistrictSentiment`. */
    method UpdateDistrictSentiment(name: string, key: string, flagged: bool)
      modifies this
      ensures data == Updated(old(data), name, key, flagged)
      ensures alerts == old(alerts)
    {
      if name !in data {
        return;
      }
      data := data[name := Update(data[name], key, flagged)];
    }

    /** `analyzeAntiNationalSentiment`, given the verdict of the AI service
        (which turns any failure into a verdict that raises nothing). */
    method AnalyzeAntiNationalSentiment(tweetText: string, author: string, timestamp: string, location: string,
                                        verdict: AT.ThreatReport) returns (alert: Option<Alert>)
      modifies this
      ensures Raises(verdict) ==>
        alert == Some(AlertFor(tweetText, author, timestamp, location, verdict)) && alerts == old(alerts) + [alert.value]
      ensures !Raises(verdict) ==> alert.None? && alerts == old(alerts)
      ensures data == old(data)
    {
      if verdict.isAntiNational && verdict.severity != "NONE" {
        var district := ExtractDistrictFromTweet(tweetText, location);
        var a := Alert(tweetText, author, timestamp, location, district, verdict.severity,
                       verdict.confidence, verdict.threats, verdict.recommendedAction, "ACTIVE");
        alerts := alerts + [a];
        return Some(a);
      }
      return None;
    }

    /** `getDistrictSentimentHeatMap`: rows pushed in district order, then
        sorted. */
    method GetDistrictSentimentHeatMap() returns (r: seq<HeatEntry>)
      ensures r == HeatMap(Order(), data)
    {
      var pushed: seq<HeatEntry> := [];
      var i := 0;
      while i < |Order()|
        invariant 0 <= i <= |Order()|
        invariant pushed == Pushed(Order()[..i], data)
      {
        assert Order()[..i + 1][..i] == Order()[..i];
        var name := Order()[i];
        if name in data && Scored(data[name].sentiment) > 0 {
          pushed := pushed + [Row(name, data[name])];
        }
        i := i + 1;
      }
      assert Order()[..i] == Order();
      r := SortByIntensity(pushed);
    }

    /** `getAntiNationalAlertsSummary`, corrected. */
    method GetAntiNationalAlertsSummary() returns (r: Summary)
      ensures r == AlertsSummary(alerts, Order())
    {
      r := AlertsSummary(alerts, Order());
    }

    /** `processTweetBasic`. */
    method ProcessTweetBasic(tweet: GeoTweet) returns (r: Option<BasicResult>)
      modifies this
      ensures r.None? <==> ExtractDistrict(tweet.text, tweet.location).None?
      ensures r.None? ==> data == old(data)
      ensures r.Some? ==> r.value == BasicResult(ExtractDistrict(tweet.text, tweet.location).value, BasicSentiment(tweet.text), 50) &&
                          data == Updated(old(data), r.value.district, r.value.sentiment, false)
      ensures alerts == old(alerts)
    {
      var district := ExtractDistrictFromTweet(tweet.text, tweet.location);
      match district {
        case None => return None;
        case Some(d) =>
          var sentiment := BasicSentiment(tweet.text);
          UpdateDistrictSentiment(d, sentiment, false);
          return Some(BasicResult(d, sentiment, 50));
      }
    }

    /** `processTweet`: the comprehensive verdict (`threat`, `geo`), and the
        second anti-national verdict the alert step asks for. */
    method ProcessTweet(tweet: GeoTweet, threat: AT.ThreatReport, geo: AT.GeoReport, second: AT.ThreatReport)
      returns (r: ProcessResult)
      modifies this
      ensures DistrictFor(tweet, geo).None? ==> r == UnlocatedResult(threat, geo) && data == old(data) && alerts == old(alerts)
      ensures DistrictFor(tweet, geo).Some? ==>
        var raised := threat.isAntiNational && Raises(second);
        r.Located? && r.district == DistrictFor(tweet, geo).value && r.sentiment == LabelFor(threat, geo) &&
        r.threatLevel == AT.ThreatLevel(threat, geo) && r.requiresAttention == AT.RequiresAttention(threat, geo) &&
        (r.alert.Some? <==> raised) &&
        alerts == old(alerts) + (if raised then [r.alert.value] else []) &&
        data == Updated(old(data), r.district, r.sentiment, raised)
    {
      var district := DistrictFor(tweet, geo);
      match district {
        case None => return UnlocatedResult(threat, geo);
        case Some(d) =>
          var sentiment := LabelFor(threat, geo);
          var alert: Option<Alert> := None;
          if threat.isAntiNational {
            alert := AnalyzeAntiNationalSentiment(tweet.text, tweet.author, tweet.timestamp, tweet.location, second);
          }
          UpdateDistrictSentiment(d, sentiment, alert.Some?);
          return Located(d, sentiment, geo.confidence, alert, AT.ThreatLevel(threat, geo), AT.RequiresAttention(threat, geo));
      }
    }

    /** `getDistrictStatistics`, the risk levels. */
    method GetDistrictStatistics() returns (r: map<string, string>)
      ensures r == RiskLevels(data)
    {
      r := RiskLevels(data);
    }
  }
}
