/**
  * USGS earthquakes: the magnitude and location read from an entry title, the magnitude and
  * date filter with its largest-first ordering, the region shown in the classification table,
  * the markdown row the ingester reads back, the feed choice and the closing summary.
  */
module Earthquakes {
  import opened Wrappers
  import opened Text
  import opened Sorting
  import opened Pipeline

  const MagnitudeMarker: string := "M "
  const LocationSeparator: string := " - "

  /**
    * `parse_magnitude`: the decimal between the first 'M ' and the following ' - ' (or the
    * following 'M '), 0.0 when the title has no 'M ' or that text is not a number.
    */
  function ParseMagnitude(title: string): (r: real)
    ensures !Contains(title, MagnitudeMarker) ==> r == 0.0
  {
    if !Contains(title, MagnitudeMarker) then 0.0
    else ParseDecimal(Before(Before(After(title, MagnitudeMarker), MagnitudeMarker), LocationSeparator)).GetOr(0.0)
  }

  lemma NoSpaceInNumber(w: string, f: string)
    requires AllDigits(w) && AllDigits(f)
    ensures ' ' !in w + "." + f && 'M' !in w + "." + f + " - "
  {
    var s := w + "." + f;
    forall i | 0 <= i < |s| ensures s[i] != ' ' && s[i] != 'M' {
      if i < |w| {
        assert s[i] == w[i] && IsDigit(w[i]);
      } else if i > |w| {
        assert s[i] == f[i - |w| - 1] && IsDigit(f[i - |w| - 1]);
      }
    }
  }

  /** A USGS title 'M w.f - place' gives the magnitude w.f, whatever the place says. */
  lemma TitleMagnitude(w: string, f: string, place: string)
    requires |w| > 0 && AllDigits(w) && AllDigits(f)
    ensures ParseMagnitude("M " + w + "." + f + " - " + place) == DecimalValue(w, f)
  {
    var num := w + "." + f;
    var p := num + " - ";
    var rest := p + place;
    var title := "M " + w + "." + f + " - " + place;
    assert title == [] + MagnitudeMarker + rest;
    SplitFirst([], MagnitudeMarker, rest);
    assert Contains(title, MagnitudeMarker) by {
      assert OccursAt(title, MagnitudeMarker, 0);
    }
    NoSpaceInNumber(w, f);
    BeforeShift(p, place, MagnitudeMarker);
    SplitFirst(num, LocationSeparator, Before(place, MagnitudeMarker));
    ParseDecimalPlain(w, f);
  }

  /** `title.split(' - ', 1)[1]`, or 'Unknown' without a separator. */
  function Location(title: string): (r: string)
    ensures !Contains(title, LocationSeparator) ==> r == "Unknown"
    ensures Contains(title, LocationSeparator) ==>
      var head := Before(title, LocationSeparator);
      title == head + LocationSeparator + r && !Contains(head, LocationSeparator)
  {
    if Contains(title, LocationSeparator) then
      SplitAround(title, LocationSeparator);
      After(title, LocationSeparator)
    else "Unknown"
  }

  // ---------------------------------------------------------------------------
  // The feed

  datatype Point = Point(latitude: string, longitude: string)

  /**
    * An ATOM entry: the title text (taken as present when the element is), the `updated` time,
    * the alternate link's href, the `georss:point` coordinates and the display date.
    */
  datatype Entry = Entry(title: Option<string>, updated: Published, link: Option<string>, point: Option<Point>, date: string)

  datatype Quake = Quake(magnitude: real, location: string, time: int, date: string, latitude: string, longitude: string, url: string)

  /**
    * What one entry contributes: nothing without a title or an `updated` element, below the
    * minimum magnitude, with an unparseable date or before the cutoff.
    */
  function Candidate(e: Entry, now: int, daysBack: int, minMagnitude: real): (r: Option<Quake>)
    ensures r.Some? <==> e.title.Some? && e.updated.Parsed? && ParseMagnitude(e.title.value) >= minMagnitude
                         && e.updated.time >= now - daysBack * SecondsPerDay
    ensures r.Some? ==> r.value.magnitude == ParseMagnitude(e.title.value) && r.value.location == Location(e.title.value)
  {
    if e.title.None? || e.updated.Missing? then None
    else
      var magnitude := ParseMagnitude(e.title.value);
      if magnitude < minMagnitude then None
      else if e.updated.Unparseable? then None
      else if e.updated.time < now - daysBack * SecondsPerDay then None
      else
        var point := e.point.GetOr(Point("?", "?"));
        Some(Quake(magnitude, Location(e.title.value), e.updated.time, e.date, point.latitude, point.longitude, e.link.GetOr("")))
  }

  function Kept(now: int, daysBack: int, minMagnitude: real): Entry -> Option<Quake> {
    e => Candidate(e, now, daysBack, minMagnitude)
  }

  function Larger(): (Quake, Quake) -> bool {
    (a: Quake, b: Quake) => a.magnitude >= b.magnitude
  }

  /** `parse_earthquakes` over the extracted entries. */
  method ParseEarthquakes(entries: seq<Entry>, now: int, daysBack: int, minMagnitude: real) returns (quakes: seq<Quake>)
    ensures quakes == SortDesc(FilterMap(entries, Kept(now, daysBack, minMagnitude)), Larger())
  {
    var kept := Collect(entries, Kept(now, daysBack, minMagnitude));
    quakes := SortDesc(kept, Larger());
  }

  /**
    * The parsed earthquakes are largest first, a stable permutation of the kept ones, and each
    * is at least the minimum magnitude and inside the window.
    */
  lemma ParseEarthquakesResult(entries: seq<Entry>, now: int, daysBack: int, minMagnitude: real, q: Quake)
    ensures var k := FilterMap(entries, Kept(now, daysBack, minMagnitude));
      var r := SortDesc(k, Larger());
      && SortedDesc(r, Larger())
      && multiset(r) == multiset(k)
      && TiedWith(r, Larger(), q) == TiedWith(k, Larger(), q)
      && (q in r ==> q.magnitude >= minMagnitude && q.time >= now - daysBack * SecondsPerDay)
  {
    var k := FilterMap(entries, Kept(now, daysBack, minMagnitude));
    LargerTotal();
    SortDescSorted(k, Larger());
    SortDescStable(k, Larger(), q);
    if q in SortDesc(k, Larger()) {
      assert q in multiset(k);
      KeptInWindow(entries, now, daysBack, minMagnitude, q);
    }
  }

  lemma LargerTotal()
    ensures TotalPreorder(Larger())
  {
  }

  lemma KeptInWindow(entries: seq<Entry>, now: int, daysBack: int, minMagnitude: real, q: Quake)
    requires q in FilterMap(entries, Kept(now, daysBack, minMagnitude))
    ensures q.magnitude >= minMagnitude && q.time >= now - daysBack * SecondsPerDay
  {
    var x :| x in entries && Kept(now, daysBack, minMagnitude)(x) == Some(q);
  }

  // ---------------------------------------------------------------------------
  // Output

  /**
    * The daily-review row for one earthquake, with the magnitude as printed:
    * `| **magnitude** | location | date | latitude, longitude | [USGS](url) |`, written as its
    * cells between the bars.
    */
  function FormatRow(magnitude: string, location: string, date: string, latitude: string, longitude: string, url: string): (r: string)
    ensures |r| == 30 + |magnitude| + |location| + |date| + |latitude| + |longitude| + |url|
    ensures r[..4] == "| **" && r[4..4 + |magnitude|] == magnitude && r[4 + |magnitude|..9 + |magnitude|] == "** | "
    ensures r[9 + |magnitude|..9 + |magnitude| + |location|] == location
    ensures r[|r| - 3 - |url|..|r| - 3] == url && r[|r| - 3..] == ") |"
  {
    RowLength(magnitude, location, date, latitude, longitude, url);
    RowOpening(magnitude, location, date, latitude, longitude, url);
    RowClosing(magnitude, location, date, latitude, longitude, url);
    RowText(magnitude, location, date, latitude, longitude, url)
  }

  /** The row's text, cell by cell. */
  function RowText(magnitude: string, location: string, date: string, latitude: string, longitude: string, url: string): string {
    "| **" + (magnitude + ("** |" + ((" " + location + " ") + ("|" + ((" " + date + " ") + ("|" +
      ((" " + latitude + ", " + longitude + " ") + ("|" + (" [USGS](" + (url + (")" + " |")))))))))))
  }

  lemma RowLength(magnitude: string, location: string, date: string, latitude: string, longitude: string, url: string)
    ensures |RowText(magnitude, location, date, latitude, longitude, url)|
         == 30 + |magnitude| + |location| + |date| + |latitude| + |longitude| + |url|
  {
  }

  /** The row opens with the bold magnitude and then the location. */
  lemma RowOpening(magnitude: string, location: string, date: string, latitude: string, longitude: string, url: string)
    ensures var r := RowText(magnitude, location, date, latitude, longitude, url);
      |r| >= 9 + |magnitude| + |location|
      && r[..4] == "| **" && r[4..4 + |magnitude|] == magnitude && r[4 + |magnitude|..9 + |magnitude|] == "** | "
      && r[9 + |magnitude|..9 + |magnitude| + |location|] == location
  {
    var r := RowText(magnitude, location, date, latitude, longitude, url);
    var cells := r[9 + |magnitude| + |location|..];
    assert r == "| **" + (magnitude + ("** | " + (location + cells)));
    ThreeParts("| **", magnitude, "** | " + (location + cells));
    ThreeParts("** | ", location, cells);
  }

  /** The row closes with the url, a parenthesis and a bar. */
  lemma RowClosing(magnitude: string, location: string, date: string, latitude: string, longitude: string, url: string)
    ensures var r := RowText(magnitude, location, date, latitude, longitude, url);
      |r| >= 3 + |url| && r[|r| - 3 - |url|..|r| - 3] == url && r[|r| - 3..] == ") |"
  {
    var t := url + (")" + " |");
    TailOfRow("| **", magnitude, "** |", " " + location + " ", "|", " " + date + " ", "|",
              " " + latitude + ", " + longitude + " ", "|", " [USGS](", t);
    var r := RowText(magnitude, location, date, latitude, longitude, url);
    SplitTail(r, url, ")" + " |");
  }

  /** A string ending with `u + v` has `u` just before its last |v| characters. */
  lemma SplitTail(r: string, u: string, v: string)
    requires |r| >= |u + v| && r[|r| - |u + v|..] == u + v
    ensures r[|r| - |v| - |u|..|r| - |v|] == u && r[|r| - |v|..] == v
  {
    assert r[|r| - |v| - |u|..|r| - |v|] == (u + v)[..|u|];
    assert r[|r| - |v|..] == (u + v)[|u|..];
  }

  /** A string nested ten deep to the right ends with its innermost part. */
  lemma TailOfRow(a1: string, a2: string, a3: string, a4: string, a5: string, a6: string, a7: string,
                  a8: string, a9: string, a10: string, t: string)
    ensures var s := a1 + (a2 + (a3 + (a4 + (a5 + (a6 + (a7 + (a8 + (a9 + (a10 + t)))))))));
      |s| >= |t| && s[|s| - |t|..] == t
  {
    var s := a1 + (a2 + (a3 + (a4 + (a5 + (a6 + (a7 + (a8 + (a9 + (a10 + t)))))))));
    assert s == (a1 + a2 + a3 + a4 + a5 + a6 + a7 + a8 + a9 + a10) + t;
  }

  /** The three parts of a concatenation, read back by slicing. */
  lemma ThreeParts(a: string, b: string, c: string)
    ensures |a + (b + c)| == |a| + |b| + |c|
    ensures (a + (b + c))[..|a|] == a && (a + (b + c))[|a|..|a| + |b|] == b && (a + (b + c))[|a| + |b|..] == c
  {
  }

  /** The region: the last comma-separated part of the location, trimmed, or the whole location. */
  function Region(location: string): (r: string)
    ensures ',' !in location ==> r == location
    ensures ',' in location ==> ',' !in r && exists i :: LastComma(location, i) && r == Strip(location[i + 1..])
  {
    if ',' in location then
      var last := AfterLast(location, ',');
      var i := |location| - |last| - 1;
      assert location[i + 1..] == last;
      assert LastComma(location, i);
      StripKeepsOut(last, ',');
      Strip(last)
    else location
  }

  /** `i` is the position of the last comma of `s`. */
  predicate LastComma(s: string, i: int) {
    0 <= i < |s| && s[i] == ',' && ',' !in s[i + 1..]
  }

  datatype Row = Row(magnitude: real, location: string, region: string)

  /** The classification table: the first five earthquakes, each with its region. */
  function TableRows(quakes: seq<Quake>): (r: seq<Row>)
    ensures |r| == if |quakes| < 5 then |quakes| else 5
    ensures forall i :: 0 <= i < |r| ==>
      r[i].magnitude == quakes[i].magnitude && r[i].location == quakes[i].location && r[i].region == Region(quakes[i].location)
  {
    var top := Take(quakes, 5);
    seq(|top|, i requires 0 <= i < |top| => Row(top[i].magnitude, top[i].location, Region(top[i].location)))
  }

  /** Largest first: the table rows are the largest earthquakes of the list. */
  lemma TableHoldsLargest(quakes: seq<Quake>, i: nat, j: nat)
    requires SortedDesc(quakes, Larger())
    requires i < |TableRows(quakes)| <= j < |quakes|
    ensures TableRows(quakes)[i].magnitude >= quakes[j].magnitude
  {
  }

  // ---------------------------------------------------------------------------
  // Feed choice and summary

  datatype Feed = HourFeed | DayFeed | WeekFeed | MonthFeed

  /** How many days each feed covers. */
  function Span(feed: Feed): nat {
    match feed
    case HourFeed => 0
    case DayFeed => 1
    case WeekFeed => 7
    case MonthFeed => 30
  }

  /** The feed for a look-back of `days`: day, week or month, never the hour feed. */
  function ChooseFeed(days: int): (r: Feed)
    ensures r != HourFeed
    ensures r == DayFeed <==> days <= 1
    ensures r == WeekFeed <==> 1 < days <= 7
  {
    if days <= 1 then DayFeed else if days <= 7 then WeekFeed else MonthFeed
  }

  /** The chosen feed covers the look-back up to 30 days, and is the shortest feed that does. */
  lemma ChosenFeedCovers(days: int, other: Feed)
    ensures days <= 30 ==> Span(ChooseFeed(days)) >= days
    ensures days > 30 ==> Span(ChooseFeed(days)) < days
    ensures Span(other) >= days && other != HourFeed ==> Span(other) >= Span(ChooseFeed(days))
  {
  }

  datatype Alarm = HighAlarm | MediumAlarm | StandardActivity

  /** The closing summary, read off the first earthquake of the list. */
  function Summary(quakes: seq<Quake>): (r: Option<Alarm>)
    ensures r.None? <==> quakes == []
  {
    if quakes == [] then None
    else if quakes[0].magnitude >= 6.0 then Some(HighAlarm)
    else if quakes[0].magnitude >= 5.0 then Some(MediumAlarm)
    else Some(StandardActivity)
  }

  /**
    * On the sorted list the first earthquake is the largest, so the summary is High exactly
    * when some earthquake reaches 6.0, and Medium when the largest is in [5.0, 6.0).
    */
  lemma SummaryOfLargest(quakes: seq<Quake>)
    requires SortedDesc(quakes, Larger()) && quakes != []
    ensures Summary(quakes) == Some(HighAlarm) <==> exists q :: q in quakes && q.magnitude >= 6.0
    ensures Summary(quakes) == Some(MediumAlarm) <==>
      (exists q :: q in quakes && q.magnitude >= 5.0) && forall q :: q in quakes ==> q.magnitude < 6.0
  {
    forall q | q in quakes ensures q.magnitude <= quakes[0].magnitude {
      var j :| 0 <= j < |quakes| && quakes[j] == q;
      assert j == 0 || Larger()(quakes[0], quakes[j]);
    }
  }
}
