/**
  * FRED news announcements: the relevance test, the feed parser (which keeps every in-window
  * announcement with a relevance flag) and the split into relevant and other announcements.
  */
module Fred {
  import opened Wrappers
  import opened Text
  import opened Sorting
  import opened Pipeline
  import Html
  import UnPeacekeeping

  const RelevantKeywords: seq<string> := [
    "inflation", "cpi", "consumer price",
    "unemployment", "employment", "jobs",
    "gdp", "gross domestic product", "economic growth",
    "trade", "import", "export", "tariff",
    "recession", "crisis", "financial",
    "supply chain", "shortage",
    "debt", "deficit",
    "wage", "income", "earnings"]

  /** `is_relevant`: some keyword occurs in the lower-cased title and description. */
  function IsRelevant(title: string, description: string): (b: bool)
    ensures b <==> exists k :: k in RelevantKeywords && Contains(UnPeacekeeping.Combined(title, description), k)
  {
    UnPeacekeeping.MatchesNonEmpty(RelevantKeywords, UnPeacekeeping.Combined(title, description));
    UnPeacekeeping.Matches(RelevantKeywords, UnPeacekeeping.Combined(title, description)) != []
  }

  /**
    * An item as the FRED parser reads it. Title and description texts are taken as present
    * (a missing text makes the script fail); the link and category texts may be missing.
    */
  datatype FredItem = FredItem(
    title: Option<string>, link: Option<Element>, description: Option<string>,
    category: Option<Element>, published: Published)

  datatype Announcement = Announcement(
    title: string, description: string, category: Option<string>, day: int, url: Option<string>, relevant: bool)

  /**
    * What one item contributes: nothing without a title, link or parseable date, or when older
    * than the cutoff; otherwise an announcement, relevant or not.
    */
  function Candidate(item: FredItem, now: int, daysBack: int): (r: Option<Announcement>)
    ensures r.Some? <==> item.title.Some? && item.link.Some? && item.published.Parsed?
                         && item.published.time >= now - daysBack * SecondsPerDay
    ensures r.Some? ==> |r.value.description| <= 203
    ensures r.Some? ==> r.value.description == Truncate(Html.CleanFred(item.description.GetOr("")), 200)
    ensures r.Some? ==> r.value.relevant == IsRelevant(item.title.value, Html.CleanFred(item.description.GetOr("")))
  {
    if item.title.None? || item.link.None? || !item.published.Parsed? then None
    else if item.published.time < now - daysBack * SecondsPerDay then None
    else
      var title := item.title.value;
      var description := if item.description.Some? then Html.CleanFred(item.description.value) else "";
      var category := if item.category.Some? then item.category.value.text else Some("General");
      Some(Announcement(title, Truncate(description, 200), category, item.published.time / SecondsPerDay,
                        item.link.value.text, IsRelevant(title, description)))
  }

  function Kept(now: int, daysBack: int): FredItem -> Option<Announcement> {
    item => Candidate(item, now, daysBack)
  }

  function NewerOrSame(): (Announcement, Announcement) -> bool {
    (a: Announcement, b: Announcement) => a.day >= b.day
  }

  /** `parse_announcements` over the extracted items. */
  method ParseAnnouncements(items: seq<FredItem>, now: int, daysBack: int) returns (anns: seq<Announcement>)
    ensures anns == SortDesc(FilterMap(items, Kept(now, daysBack)), NewerOrSame())
  {
    var kept := Collect(items, Kept(now, daysBack));
    anns := SortDesc(kept, NewerOrSame());
  }

  /** Every in-window item with a title and link is kept (relevant or not), newest first. */
  lemma ParseKeepsAll(items: seq<FredItem>, now: int, daysBack: int, x: FredItem)
    requires x in items && x.title.Some? && x.link.Some? && x.published.Parsed?
    requires x.published.time >= now - daysBack * SecondsPerDay
    ensures Candidate(x, now, daysBack).value in SortDesc(FilterMap(items, Kept(now, daysBack)), NewerOrSame())
    ensures SortedDesc(SortDesc(FilterMap(items, Kept(now, daysBack)), NewerOrSame()), NewerOrSame())
  {
    var k := FilterMap(items, Kept(now, daysBack));
    FilterMapKeepsAll(items, Kept(now, daysBack), x);
    assert Candidate(x, now, daysBack).value in multiset(SortDesc(k, NewerOrSame()));
    SortDescSorted(k, NewerOrSame());
  }

  // ---------------------------------------------------------------------------
  // The review section

  predicate Relevant(a: Announcement) {
    a.relevant
  }

  predicate Other(a: Announcement) {
    !a.relevant
  }

  datatype Review =
    | NoAnnouncements
    | Review(relevant: seq<Announcement>, otherShown: seq<Announcement>, otherCount: nat, more: Option<nat>, total: nat)

  /**
    * `format_for_daily_review`, as the rows it shows and the counts it prints: every relevant
    * announcement in list order, then the first five others in list order and how many others
    * there are.
    */
  function FormatReview(anns: seq<Announcement>): (r: Review)
    ensures r.NoAnnouncements? <==> anns == []
    ensures r.Review? ==> r.total == |anns| == |r.relevant| + r.otherCount
    ensures r.Review? ==>
      var rel := Positions(anns, Relevant);
      |r.relevant| == |rel| && forall k :: 0 <= k < |rel| ==> r.relevant[k] == anns[rel[k]] && r.relevant[k].relevant
    ensures r.Review? ==>
      var oth := Positions(anns, Other);
      && r.otherCount == |oth|
      && |r.otherShown| == (if |oth| < 5 then |oth| else 5)
      && forall k :: 0 <= k < |r.otherShown| ==> r.otherShown[k] == anns[oth[k]] && !r.otherShown[k].relevant
    ensures r.Review? ==> (r.more.Some? <==> r.otherCount > 5)
    ensures r.Review? && r.more.Some? ==> r.more.value == r.otherCount - 5
  {
    if anns == [] then NoAnnouncements
    else
      var relevant := Filter(anns, Relevant);
      var other := Filter(anns, Other);
      FilterComplement(anns, Relevant, Other);
      RelevantListed(anns);
      OthersShown(anns);
      var shown := Take(other, 5);
      Review(relevant, shown, |other|, if |other| > 5 then Some(|other| - 5) else None, |anns|)
  }

  lemma RelevantListed(anns: seq<Announcement>)
    ensures var rel := Positions(anns, Relevant);
      |Filter(anns, Relevant)| == |rel| &&
      forall k :: 0 <= k < |rel| ==> Filter(anns, Relevant)[k] == anns[rel[k]] && Filter(anns, Relevant)[k].relevant
  {
    FilterAtPositions(anns, Relevant);
  }

  lemma OthersShown(anns: seq<Announcement>)
    ensures var oth := Positions(anns, Other);
      var shown := Take(Filter(anns, Other), 5);
      && |Filter(anns, Other)| == |oth|
      && |shown| == (if |oth| < 5 then |oth| else 5)
      && forall k :: 0 <= k < |shown| ==> shown[k] == anns[oth[k]] && !shown[k].relevant
  {
    FilterAtPositions(anns, Other);
  }
}
