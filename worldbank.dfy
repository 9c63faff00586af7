/**
  * World Bank news: keyword classification into the J0 (poverty, disasters) and H0 (economic
  * crisis) nodes, the feed pipeline, and the classification-table rows.
  */
module WorldBank {
  import opened Wrappers
  import opened Text
  import opened Ratings
  import opened Sorting
  import opened Pipeline
  import Html
  import UnPeacekeeping

  const PovertyKeywords: seq<string> := [
    "poverty", "poor", "famine", "hunger", "food security", "malnutrition",
    "food crisis", "humanitarian", "aid", "relief", "vulnerable",
    "food assistance", "drought", "crop failure"]

  const DisasterKeywords: seq<string> := [
    "cyclone", "hurricane", "typhoon", "flood", "earthquake", "tsunami",
    "disaster", "damage", "destroyed", "devastated", "emergency",
    "volcano", "wildfire", "landslide"]

  const EconomicKeywords: seq<string> := [
    "economic crisis", "recession", "collapse", "inflation", "debt crisis",
    "financial crisis", "bankruptcy", "economic instability",
    "currency crisis", "trade collapse", "market crash"]

  const ScaleWords: seq<string> := ["billion", "million", "deaths", "destroyed"]
  const TrendWords: seq<string> := ["increase", "crisis", "forecast"]

  datatype Node = J0 | H0

  datatype Classification = Classification(nodes: seq<Node>, keywords: seq<string>, confidence: Confidence, relevant: bool)

  /** J0 once if poverty or disaster keywords matched, then H0 if economic ones did. */
  function NodesFor(poverty: bool, disaster: bool, economic: bool): (r: seq<Node>)
    ensures J0 in r <==> poverty || disaster
    ensures H0 in r <==> economic
    ensures Distinct(r)
    ensures J0 in r && H0 in r ==> r == [J0, H0]
  {
    (if poverty || disaster then [J0] else []) + (if economic then [H0] else [])
  }

  function ConfidenceFor(poverty: bool, disaster: bool, economic: bool, scale: bool, trend: bool): Confidence {
    if disaster && scale then High
    else if poverty && trend then Med
    else if economic then Med
    else Low
  }

  /** `keywords_found` before the set: the first two matches of each list, in list order. */
  function FoundList(c: string): seq<string> {
    Take(UnPeacekeeping.Matches(PovertyKeywords, c), 2)
      + Take(UnPeacekeeping.Matches(DisasterKeywords, c), 2)
      + Take(UnPeacekeeping.Matches(EconomicKeywords, c), 2)
  }

  /**
    * The keywords reported for the lower-cased text `c`: `list(set(keywords_found))[:3]`, i.e.
    * min(3, number of distinct found) of them (any three: the set's order is not the lists' order).
    */
  function KeywordsFound(c: string): (r: seq<string>)
    ensures |r| == if |Elements(FoundList(c))| < 3 then |Elements(FoundList(c))| else 3
    ensures Distinct(r)
    ensures forall k :: k in r ==> k in FoundList(c)
    ensures forall k :: k in r ==>
      (k in PovertyKeywords || k in DisasterKeywords || k in EconomicKeywords) && Contains(c, k)
    ensures r != [] <==> UnPeacekeeping.AnyIn(PovertyKeywords, c) || UnPeacekeeping.AnyIn(DisasterKeywords, c)
                         || UnPeacekeeping.AnyIn(EconomicKeywords, c)
  {
    var unique := Dedup(FoundList(c));
    DedupCard(FoundList(c));
    FoundNonEmpty(c);
    FoundListed(c, Take(unique, 3));
    Take(unique, 3)
  }

  /** Every keyword taken from the found list is a listed keyword present in the text. */
  lemma FoundListed(c: string, r: seq<string>)
    requires forall k :: k in r ==> k in FoundList(c)
    ensures forall k :: k in r ==>
      (k in PovertyKeywords || k in DisasterKeywords || k in EconomicKeywords) && Contains(c, k)
  {
    forall k | k in r
      ensures (k in PovertyKeywords || k in DisasterKeywords || k in EconomicKeywords) && Contains(c, k)
    {
      FoundKeyword(UnPeacekeeping.Matches(PovertyKeywords, c), UnPeacekeeping.Matches(DisasterKeywords, c),
                   UnPeacekeeping.Matches(EconomicKeywords, c), c, k);
    }
  }

  /** Something is found iff some keyword of the three lists occurs. */
  lemma FoundNonEmpty(c: string)
    ensures FoundList(c) != [] <==> UnPeacekeeping.AnyIn(PovertyKeywords, c) || UnPeacekeeping.AnyIn(DisasterKeywords, c)
                                    || UnPeacekeeping.AnyIn(EconomicKeywords, c)
  {
    UnPeacekeeping.MatchesNonEmpty(PovertyKeywords, c);
    UnPeacekeeping.MatchesNonEmpty(DisasterKeywords, c);
    UnPeacekeeping.MatchesNonEmpty(EconomicKeywords, c);
  }

  /** `classify_article`; the text is `(title + ' ' + description).lower()`. */
  function ClassifyArticle(title: string, description: string): (r: Classification)
    ensures |r.keywords| <= 3 && Distinct(r.keywords)
    ensures forall k :: k in r.keywords ==>
      (k in PovertyKeywords || k in DisasterKeywords || k in EconomicKeywords) && Contains(UnPeacekeeping.Combined(title, description), k)
    ensures r.relevant <==> r.nodes != []
    ensures r.relevant <==> r.keywords != []
  {
    var c := UnPeacekeeping.Combined(title, description);
    UnPeacekeeping.MatchesNonEmpty(PovertyKeywords, c);
    UnPeacekeeping.MatchesNonEmpty(DisasterKeywords, c);
    UnPeacekeeping.MatchesNonEmpty(EconomicKeywords, c);
    var poverty := UnPeacekeeping.Matches(PovertyKeywords, c);
    var disaster := UnPeacekeeping.Matches(DisasterKeywords, c);
    var economic := UnPeacekeeping.Matches(EconomicKeywords, c);
    var nodes := NodesFor(poverty != [], disaster != [], economic != []);
    Classification(
      nodes,
      KeywordsFound(c),
      ConfidenceFor(poverty != [], disaster != [], economic != [],
                    UnPeacekeeping.AnyIn(ScaleWords, c), UnPeacekeeping.AnyIn(TrendWords, c)),
      |nodes| > 0)
  }

  lemma FoundKeyword(poverty: seq<string>, disaster: seq<string>, economic: seq<string>, c: string, k: string)
    requires poverty == UnPeacekeeping.Matches(PovertyKeywords, c)
    requires disaster == UnPeacekeeping.Matches(DisasterKeywords, c)
    requires economic == UnPeacekeeping.Matches(EconomicKeywords, c)
    requires k in Take(poverty, 2) + Take(disaster, 2) + Take(economic, 2)
    ensures (k in PovertyKeywords || k in DisasterKeywords || k in EconomicKeywords) && Contains(c, k)
  {
    assert k in poverty || k in disaster || k in economic;
  }

  /** Which nodes an article gets, and that an irrelevant one is Low. */
  lemma ClassifyNodes(title: string, description: string)
    ensures var r := ClassifyArticle(title, description);
      var c := UnPeacekeeping.Combined(title, description);
      && (J0 in r.nodes <==> UnPeacekeeping.AnyIn(PovertyKeywords, c) || UnPeacekeeping.AnyIn(DisasterKeywords, c))
      && (H0 in r.nodes <==> UnPeacekeeping.AnyIn(EconomicKeywords, c))
      && (!r.relevant ==> r.confidence == Low)
  {
    var c := UnPeacekeeping.Combined(title, description);
    UnPeacekeeping.MatchesNonEmpty(PovertyKeywords, c);
    UnPeacekeeping.MatchesNonEmpty(DisasterKeywords, c);
    UnPeacekeeping.MatchesNonEmpty(EconomicKeywords, c);
  }

  /** 'destroyed' is both a disaster keyword and a scale word: such an article is always High. */
  lemma DestroyedIsHigh(title: string, description: string)
    requires Contains(UnPeacekeeping.Combined(title, description), "destroyed")
    ensures ClassifyArticle(title, description).confidence == High
  {
    var c := UnPeacekeeping.Combined(title, description);
    assert DisasterKeywords[8] == "destroyed" && ScaleWords[3] == "destroyed";
    UnPeacekeeping.MatchesNonEmpty(DisasterKeywords, c);
  }

  // ---------------------------------------------------------------------------
  // The feed

  datatype Article = Article(
    title: string, description: string, day: int, url: Option<string>,
    nodes: seq<Node>, keywords: seq<string>, confidence: Confidence)

  /** The cleaned title of an item that has one. */
  function CleanTitle(item: Item): string
    requires item.title.Some?
  {
    Html.CleanWorldBank(item.title.value.text)
  }

  /** The cleaned description; a missing element cleans like a missing text. */
  function CleanDescription(item: Item): string {
    Html.CleanWorldBank(if item.description.Some? then item.description.value.text else None)
  }

  /**
    * What one item contributes: nothing without a title, link or parseable date, when older than
    * the cutoff, or when no node matched. Descriptions are cut at 150 characters. A kept article
    * carries the classification of its cleaned title and description.
    */
  function Candidate(item: Item, now: int, daysBack: int): (r: Option<Article>)
    ensures r.Some? <==> item.title.Some? && item.link.Some? && item.published.Parsed?
                         && item.published.time >= now - daysBack * SecondsPerDay
                         && ClassifyArticle(CleanTitle(item), CleanDescription(item)).relevant
    ensures r.Some? ==> r.value.nodes != [] && |r.value.description| <= 153
    ensures r.Some? ==> r.value.description == Truncate(CleanDescription(item), 150)
    ensures r.Some? ==>
      var c := ClassifyArticle(CleanTitle(item), CleanDescription(item));
      && r.value.title == CleanTitle(item)
      && r.value.nodes == c.nodes && r.value.keywords == c.keywords && r.value.confidence == c.confidence
  {
    if item.title.None? || item.link.None? || !item.published.Parsed? then None
    else if item.published.time < now - daysBack * SecondsPerDay then None
    else
      var title := CleanTitle(item);
      var description := CleanDescription(item);
      var c := ClassifyArticle(title, description);
      if !c.relevant then None
      else Some(Article(title, Truncate(description, 150), item.published.time / SecondsPerDay,
                        item.link.value.text, c.nodes, c.keywords, c.confidence))
  }

  function Kept(now: int, daysBack: int): Item -> Option<Article> {
    item => Candidate(item, now, daysBack)
  }

  function NewerOrSame(): (Article, Article) -> bool {
    (a: Article, b: Article) => a.day >= b.day
  }

  /** `parse_news` over the extracted items. */
  method ParseNews(items: seq<Item>, now: int, daysBack: int) returns (articles: seq<Article>)
    ensures articles == SortDesc(FilterMap(items, Kept(now, daysBack)), NewerOrSame())
  {
    var kept := Collect(items, Kept(now, daysBack));
    articles := SortDesc(kept, NewerOrSame());
  }

  /** The parsed news is newest first, a permutation of the kept articles, and every article has a node. */
  lemma ParseNewsResult(items: seq<Item>, now: int, daysBack: int, a: Article)
    ensures var k := FilterMap(items, Kept(now, daysBack));
      var r := SortDesc(k, NewerOrSame());
      && SortedDesc(r, NewerOrSame())
      && multiset(r) == multiset(k)
      && TiedWith(r, NewerOrSame(), a) == TiedWith(k, NewerOrSame(), a)
      && (a in r ==> a.nodes != [] && |a.description| <= 153)
  {
    var k := FilterMap(items, Kept(now, daysBack));
    SortDescSorted(k, NewerOrSame());
    SortDescStable(k, NewerOrSame(), a);
    if a in SortDesc(k, NewerOrSame()) {
      assert a in multiset(k);
      var x :| x in items && Kept(now, daysBack)(x) == Some(a);
    }
  }

  // ---------------------------------------------------------------------------
  // Classification table

  datatype Row = Row(nodes: seq<Node>, scripture: string, category: string, confidence: Confidence)

  /** An article's table row: the J0 anchor and category when J0 is among its nodes, else the H0 ones. */
  function TableRow(a: Article): (r: Row)
    ensures r.scripture == "Matt 24:7-8" <==> J0 in a.nodes
    ensures r.category == "Disaster/Famine" <==> J0 in a.nodes
    ensures J0 !in a.nodes ==> r.scripture == "Rev 17-18" && r.category == "Economic"
    ensures r.nodes == a.nodes && r.confidence == a.confidence
  {
    if J0 in a.nodes then Row(a.nodes, "Matt 24:7-8", "Disaster/Famine", a.confidence)
    else Row(a.nodes, "Rev 17-18", "Economic", a.confidence)
  }

  /** The first ten articles, as rows. */
  function TableRows(articles: seq<Article>): (r: seq<Row>)
    ensures |r| == if |articles| < 10 then |articles| else 10
    ensures forall i :: 0 <= i < |r| ==> r[i] == TableRow(articles[i])
  {
    var top := Take(articles, 10);
    seq(|top|, i requires 0 <= i < |top| => TableRow(top[i]))
  }
}
