/**
  * GDACS multi-hazard alerts: the alert-level ranking, the level and date filter of the feed
  * parser, its (level, date) ordering, the grouping by disaster type and the table confidence.
  */
module Gdacs {
  import opened Wrappers
  import opened Text
  import opened Sorting
  import opened Pipeline

  /** `ALERT_LEVELS.get(level, default)`: Red 3, Orange 2, Green 1. */
  function AlertRank(level: string, default: nat): (r: nat)
    ensures level == "Red" ==> r == 3
    ensures level == "Orange" ==> r == 2
    ensures level == "Green" ==> r == 1
    ensures level != "Red" && level != "Orange" && level != "Green" ==> r == default
  {
    if level == "Red" then 3 else if level == "Orange" then 2 else if level == "Green" then 1 else default
  }

  /** `DISASTER_TYPES.get(code, 'Unknown')`; a missing event type looks up 'Unknown'. */
  function DisasterType(code: Option<string>): (r: string)
    ensures r != "Unknown" <==> code.Some? && code.value in {"EQ", "TC", "FL", "DR", "VO"}
  {
    match code
    case Some("EQ") => "Earthquake"
    case Some("TC") => "Tropical Cyclone"
    case Some("FL") => "Flood"
    case Some("DR") => "Drought"
    case Some("VO") => "Volcano"
    case _ => "Unknown"
  }

  /** The `gdacs:population` element: its text and its `value` attribute, if any. */
  datatype Population = Population(text: string, value: Option<string>)

  /** The affected-population cell: "text (value people)", or 'Unknown' when the value is '0'. */
  function PopulationText(p: Option<Population>): (r: string)
    ensures var value := if p.Some? then p.value.value.GetOr("0") else "0";
      && (r == "Unknown" <==> value == "0")
      && (value != "0" ==> r == p.value.text + " (" + value + " people)")
  {
    var text := if p.Some? then p.value.text else "0";
    var value := if p.Some? then p.value.value.GetOr("0") else "0";
    if value != "0" then
      var r := text + " (" + value + " people)";
      assert r[|r| - 1] == ')';
      r
    else "Unknown"
  }

  /**
    * A GDACS item. The texts of the GDACS elements are taken as present; `eventDate` is the
    * display date already chosen from `gdacs:fromdate` or the publication date.
    */
  datatype GdacsItem = GdacsItem(
    title: Option<Element>, link: Option<Element>, description: Option<Element>, published: Published,
    eventType: Option<string>, alertLevel: Option<string>, severity: Option<string>,
    country: Option<string>, population: Option<Population>, eventDate: string)

  datatype Disaster = Disaster(
    kind: string, alertLevel: string, title: Option<string>, description: Option<string>,
    severity: string, country: string, population: string, date: string, url: Option<string>)

  /**
    * What one item contributes: nothing without a title, link or parseable date, when older than
    * the cutoff, or when its level ranks below the minimum (an unknown level ranks as Green).
    */
  function Candidate(item: GdacsItem, now: int, daysBack: int, minRank: nat): (r: Option<Disaster>)
    ensures r.Some? <==> item.title.Some? && item.link.Some? && item.published.Parsed?
                         && item.published.time >= now - daysBack * SecondsPerDay
                         && AlertRank(item.alertLevel.GetOr("Green"), 1) >= minRank
    ensures r.Some? ==> r.value.alertLevel == item.alertLevel.GetOr("Green")
                        && r.value.kind == DisasterType(item.eventType)
    ensures r.Some? && minRank == 3 ==> item.alertLevel == Some("Red")
  {
    if item.title.None? || item.link.None? || !item.published.Parsed? then None
    else if item.published.time < now - daysBack * SecondsPerDay then None
    else
      var alert := item.alertLevel.GetOr("Green");
      if AlertRank(alert, 1) < minRank then None
      else
        Some(Disaster(
          DisasterType(item.eventType), alert, item.title.value.text,
          if item.description.Some? then item.description.value.text else Some(""),
          item.severity.GetOr("Unknown severity"), item.country.GetOr("Unknown"),
          PopulationText(item.population), item.eventDate, item.link.value.text))
  }

  function Kept(now: int, daysBack: int, minLevel: string): GdacsItem -> Option<Disaster> {
    item => Candidate(item, now, daysBack, AlertRank(minLevel, 1))
  }

  /** The sort key `(ALERT_LEVELS.get(level, 0), date)`, compared descending. */
  function MoreSevereOrLater(): (Disaster, Disaster) -> bool {
    (a: Disaster, b: Disaster) =>
      AlertRank(a.alertLevel, 0) > AlertRank(b.alertLevel, 0)
      || (AlertRank(a.alertLevel, 0) == AlertRank(b.alertLevel, 0) && LexLe(b.date, a.date))
  }

  lemma MoreSevereOrLaterTotal()
    ensures TotalPreorder(MoreSevereOrLater())
  {
    var ge := MoreSevereOrLater();
    forall a: Disaster, b: Disaster ensures ge(a, b) || ge(b, a) {
      LexLeTotal(a.date, b.date);
    }
    forall a: Disaster, b: Disaster, c: Disaster | ge(a, b) && ge(b, c) ensures ge(a, c) {
      if AlertRank(a.alertLevel, 0) == AlertRank(b.alertLevel, 0) == AlertRank(c.alertLevel, 0) {
        LexLeTransitive(c.date, b.date, a.date);
      }
    }
  }

  /** `parse_disasters` over the extracted items. */
  method ParseDisasters(items: seq<GdacsItem>, now: int, daysBack: int, minLevel: string) returns (disasters: seq<Disaster>)
    ensures disasters == SortDesc(FilterMap(items, Kept(now, daysBack, minLevel)), MoreSevereOrLater())
  {
    var kept := Collect(items, Kept(now, daysBack, minLevel));
    disasters := SortDesc(kept, MoreSevereOrLater());
  }

  /**
    * The parsed alerts are ordered by level then date, descending, are a stable permutation of
    * the kept ones, and each ranks at least as high as the minimum.
    */
  lemma ParseDisastersResult(items: seq<GdacsItem>, now: int, daysBack: int, minLevel: string, d: Disaster)
    ensures var k := FilterMap(items, Kept(now, daysBack, minLevel));
      var r := SortDesc(k, MoreSevereOrLater());
      && SortedDesc(r, MoreSevereOrLater())
      && multiset(r) == multiset(k)
      && TiedWith(r, MoreSevereOrLater(), d) == TiedWith(k, MoreSevereOrLater(), d)
      && (d in r ==> AlertRank(d.alertLevel, 1) >= AlertRank(minLevel, 1))
  {
    var k := FilterMap(items, Kept(now, daysBack, minLevel));
    MoreSevereOrLaterTotal();
    SortDescSorted(k, MoreSevereOrLater());
    SortDescStable(k, MoreSevereOrLater(), d);
    if d in SortDesc(k, MoreSevereOrLater()) {
      assert d in multiset(k);
      var x :| x in items && Kept(now, daysBack, minLevel)(x) == Some(d);
    }
  }

  // ---------------------------------------------------------------------------
  // The daily review

  function OfKind(kind: string): Disaster -> bool {
    (d: Disaster) => d.kind == kind
  }

  /** The disaster types present in `s`. */
  function Kinds(s: seq<Disaster>): set<string> {
    set d | d in s :: d.kind
  }

  /** `groups` holds, for each type present in `s`, the alerts of `s` of that type in order. */
  predicate Grouped(groups: map<string, seq<Disaster>>, s: seq<Disaster>) {
    && groups.Keys == Kinds(s)
    && forall kind :: kind in groups ==> groups[kind] == Filter(s, OfKind(kind))
  }

  /** The `by_type` loop of `format_for_daily_review`: the alerts of each type, in list order. */
  method GroupByType(disasters: seq<Disaster>) returns (groups: map<string, seq<Disaster>>)
    ensures forall kind :: kind in groups <==> exists d :: d in disasters && d.kind == kind
    ensures forall kind :: kind in groups ==> groups[kind] == Filter(disasters, OfKind(kind))
  {
    groups := map[];
    var i := 0;
    while i < |disasters|
      invariant i <= |disasters|
      invariant Grouped(groups, disasters[..i])
    {
      var d := disasters[i];
      assert disasters[..i + 1] == disasters[..i] + [d];
      GroupStep(groups, disasters[..i], d);
      if d.kind !in groups {
        groups := groups[d.kind := [d]];
      } else {
        groups := groups[d.kind := groups[d.kind] + [d]];
      }
      i := i + 1;
    }
    assert disasters[..i] == disasters;
    GroupedMeans(groups, disasters);
  }

  /** Adding one alert to its type's group, or opening a group for it, keeps the grouping. */
  lemma GroupStep(groups: map<string, seq<Disaster>>, s: seq<Disaster>, d: Disaster)
    requires Grouped(groups, s)
    ensures d.kind !in groups ==> Grouped(groups[d.kind := [d]], s + [d])
    ensures d.kind in groups ==> Grouped(groups[d.kind := groups[d.kind] + [d]], s + [d])
  {
    if d.kind !in groups {
      GroupOpen(groups, s, d);
    } else {
      GroupAppend(groups, s, d);
    }
  }

  lemma GroupOpen(groups: map<string, seq<Disaster>>, s: seq<Disaster>, d: Disaster)
    requires Grouped(groups, s) && d.kind !in groups
    ensures Grouped(groups[d.kind := [d]], s + [d])
  {
    GroupOpenKeys(groups, s, d);
    GroupOpenValues(groups, s, d);
  }

  lemma GroupOpenKeys(groups: map<string, seq<Disaster>>, s: seq<Disaster>, d: Disaster)
    requires groups.Keys == Kinds(s)
    ensures groups[d.kind := [d]].Keys == Kinds(s + [d])
  {
    KindsSnoc(s, d);
  }

  lemma GroupOpenValues(groups: map<string, seq<Disaster>>, s: seq<Disaster>, d: Disaster)
    requires Grouped(groups, s) && d.kind !in groups
    ensures forall kind :: kind in groups[d.kind := [d]] ==> groups[d.kind := [d]][kind] == Filter(s + [d], OfKind(kind))
  {
    forall kind | kind in groups[d.kind := [d]] ensures groups[d.kind := [d]][kind] == Filter(s + [d], OfKind(kind)) {
      GroupOpenKind(groups, s, d, kind);
    }
  }

  lemma GroupOpenKind(groups: map<string, seq<Disaster>>, s: seq<Disaster>, d: Disaster, kind: string)
    requires d.kind !in Kinds(s)
    requires kind in groups ==> groups[kind] == Filter(s, OfKind(kind))
    requires kind in groups || kind == d.kind
    ensures groups[d.kind := [d]][kind] == Filter(s + [d], OfKind(kind))
  {
    FilterSnoc(s, d, kind);
    if kind == d.kind {
      FilterNone(s, kind);
    }
  }

  lemma GroupAppend(groups: map<string, seq<Disaster>>, s: seq<Disaster>, d: Disaster)
    requires Grouped(groups, s) && d.kind in groups
    ensures Grouped(groups[d.kind := groups[d.kind] + [d]], s + [d])
  {
    GroupAppendKeys(groups, s, d);
    GroupAppendValues(groups, s, d);
  }

  lemma GroupAppendKeys(groups: map<string, seq<Disaster>>, s: seq<Disaster>, d: Disaster)
    requires groups.Keys == Kinds(s) && d.kind in groups
    ensures groups[d.kind := groups[d.kind] + [d]].Keys == Kinds(s + [d])
  {
    KindsSnoc(s, d);
  }

  lemma GroupAppendValues(groups: map<string, seq<Disaster>>, s: seq<Disaster>, d: Disaster)
    requires Grouped(groups, s) && d.kind in groups
    ensures var g := groups[d.kind := groups[d.kind] + [d]];
      forall kind :: kind in g ==> g[kind] == Filter(s + [d], OfKind(kind))
  {
    var g := groups[d.kind := groups[d.kind] + [d]];
    forall kind | kind in g ensures g[kind] == Filter(s + [d], OfKind(kind)) {
      FilterSnoc(s, d, kind);
    }
  }

  lemma GroupedMeans(groups: map<string, seq<Disaster>>, s: seq<Disaster>)
    requires Grouped(groups, s)
    ensures forall kind :: kind in groups <==> exists d :: d in s && d.kind == kind
    ensures forall kind :: kind in groups ==> groups[kind] == Filter(s, OfKind(kind))
  {
  }

  lemma KindsSnoc(s: seq<Disaster>, d: Disaster)
    ensures Kinds(s + [d]) == Kinds(s) + {d.kind}
  {
    assert forall x :: x in s + [d] <==> x in s || x == d;
  }

  lemma FilterSnoc(s: seq<Disaster>, d: Disaster, kind: string)
    ensures Filter(s + [d], OfKind(kind)) == Filter(s, OfKind(kind)) + (if d.kind == kind then [d] else [])
  {
    assert (s + [d])[..|s + [d]| - 1] == s;
  }

  lemma {:induction false} FilterNone(s: seq<Disaster>, kind: string)
    requires kind !in Kinds(s)
    ensures Filter(s, OfKind(kind)) == []
  {
    if s != [] {
      FilterNone(s[..|s| - 1], kind);
    }
  }

  predicate IsRed(d: Disaster) {
    d.alertLevel == "Red"
  }

  predicate IsOrange(d: Disaster) {
    d.alertLevel == "Orange"
  }

  predicate IsGreen(d: Disaster) {
    d.alertLevel == "Green"
  }

  /** The summary counts cover each alert at most once, and all of them when every level is known. */
  lemma {:induction false} LevelCounts(s: seq<Disaster>)
    ensures |Filter(s, IsRed)| + |Filter(s, IsOrange)| + |Filter(s, IsGreen)| <= |s|
    ensures (forall d :: d in s ==> AlertRank(d.alertLevel, 0) > 0) ==>
      |Filter(s, IsRed)| + |Filter(s, IsOrange)| + |Filter(s, IsGreen)| == |s|
  {
    if s != [] {
      var init := s[..|s| - 1];
      assert forall d :: d in init ==> d in s;
      LevelCounts(init);
    }
  }

  // ---------------------------------------------------------------------------
  // Classification table

  datatype Row = Row(headline: string, region: string, kind: string, confidence: string)

  /** A table row: High for Red and Orange alerts, Med otherwise. */
  function TableRow(d: Disaster): (r: Row)
    ensures r.confidence == "High" <==> d.alertLevel in {"Red", "Orange"}
    ensures r.confidence != "High" ==> r.confidence == "Med"
    ensures r.region == d.country && r.kind == d.kind
  {
    Row(d.alertLevel + " alert: " + d.kind + " in " + d.country + " - " + d.severity, d.country, d.kind,
        if d.alertLevel in ["Red", "Orange"] then "High" else "Med")
  }

  /** The first ten alerts, as rows. */
  function TableRows(disasters: seq<Disaster>): (r: seq<Row>)
    ensures |r| == if |disasters| < 10 then |disasters| else 10
    ensures forall i :: 0 <= i < |r| ==> r[i] == TableRow(disasters[i])
  {
    var top := Take(disasters, 10);
    seq(|top|, i requires 0 <= i < |top| => TableRow(top[i]))
  }
}
