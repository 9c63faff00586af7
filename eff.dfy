/**
  * EFF digital-rights news: the B2 keyword filter of the feed parser and the article classifier
  * (categories and confidence), and which articles reach the classification table.
  */
module Eff {
  import opened Wrappers
  import opened Text
  import opened Ratings
  import opened Pipeline
  import UnPeacekeeping

  const B2Keywords: seq<string> := [
    "biometric", "facial recognition", "digital id", "digital identity",
    "surveillance", "tracking", "age verification", "vpn",
    "fingerprint", "iris scan", "palm scan", "voice recognition",
    "cbdc", "digital currency", "crypto", "blockchain payment",
    "social credit", "compliance", "mandate", "verification",
    "authentication", "authorization", "access control",
    "payment system", "cashless", "digital wallet"]

  const HighConfidenceIndicators: seq<string> := ["mandate", "requirement", "law", "regulation", "government", "federal", "state"]
  const BiometricIndicators: seq<string> := ["biometric", "facial recognition", "fingerprint", "iris scan", "palm scan"]
  const IdIndicators: seq<string> := ["digital id", "digital identity", "age verification", "authentication"]
  const PaymentIndicators: seq<string> := ["cbdc", "digital currency", "cashless", "payment system"]

  /**
    * An item as the EFF parser reads it: element texts are taken as present (a child element
    * without text makes the script fail), a missing title or link reads 'N/A'.
    */
  datatype EffItem = EffItem(title: Option<string>, link: Option<string>, description: Option<string>, published: Published)

  datatype Article = Article(title: string, link: string, published: Published, keywords: seq<string>, description: string)

  /**
    * What one item contributes: with a date, it must parse and be inside the window; an item with
    * no date skips the window check. It is kept only when some B2 keyword occurs.
    */
  function Candidate(item: EffItem, now: int, daysBack: int): (r: Option<Article>)
    ensures r.Some? ==> r.value.keywords != [] && |r.value.description| <= 203
    ensures r.Some? ==> r.value.description == Truncate(item.description.GetOr(""), 200)
    ensures var c := UnPeacekeeping.Combined(item.title.GetOr("N/A"), item.description.GetOr(""));
      r.Some? ==> r.value.keywords == UnPeacekeeping.Matches(B2Keywords, c)
    ensures r.Some? ==> !item.published.Unparseable?
    ensures r.Some? && item.published.Parsed? ==> item.published.time >= now - daysBack * SecondsPerDay
    ensures var title := item.title.GetOr("N/A");
      var description := item.description.GetOr("");
      (r.Some? <==> !item.published.Unparseable?
                    && (item.published.Parsed? ==> item.published.time >= now - daysBack * SecondsPerDay)
                    && UnPeacekeeping.AnyIn(B2Keywords, UnPeacekeeping.Combined(title, description)))
  {
    var title := item.title.GetOr("N/A");
    var link := item.link.GetOr("N/A");
    var description := item.description.GetOr("");
    var c := UnPeacekeeping.Combined(title, description);
    UnPeacekeeping.MatchesNonEmpty(B2Keywords, c);
    if item.published.Unparseable? then None
    else if item.published.Parsed? && item.published.time < now - daysBack * SecondsPerDay then None
    else
      var matched := UnPeacekeeping.Matches(B2Keywords, c);
      if matched == [] then None
      else Some(Article(title, link, item.published, matched, Truncate(description, 200)))
  }

  function Kept(now: int, daysBack: int): EffItem -> Option<Article> {
    item => Candidate(item, now, daysBack)
  }

  /** `parse_rss` over the extracted items: feed order, no sorting. */
  method ParseRss(items: seq<EffItem>, now: int, daysBack: int) returns (articles: seq<Article>)
    ensures articles == FilterMap(items, Kept(now, daysBack))
    ensures |articles| <= |items|
    ensures forall a :: a in articles ==> a.keywords != [] && !a.published.Unparseable?
  {
    articles := Collect(items, Kept(now, daysBack));
    forall a | a in articles ensures a.keywords != [] && !a.published.Unparseable? {
      var x :| x in items && Kept(now, daysBack)(x) == Some(a);
    }
  }

  // ---------------------------------------------------------------------------
  // Classification

  datatype Category = BiometricSystems | DigitalId | PaymentSystems | SurveillancePrivacy

  datatype Classification = Classification(categories: seq<Category>, confidence: Confidence)

  /** The categories in fixed order; 'Surveillance/Privacy' alone when none applies. */
  function CategoriesFor(biometric: bool, id: bool, payment: bool): (r: seq<Category>)
    ensures r == [SurveillancePrivacy] <==> !biometric && !id && !payment
    ensures BiometricSystems in r <==> biometric
    ensures DigitalId in r <==> id
    ensures PaymentSystems in r <==> payment
    ensures 1 <= |r| <= 3 && Distinct(r)
  {
    var r := (if biometric then [BiometricSystems] else []) + (if id then [DigitalId] else [])
             + (if payment then [PaymentSystems] else []);
    assert SurveillancePrivacy !in r;
    if r == [] then [SurveillancePrivacy] else r
  }

  /** `classify_article`: the keywords argument is not used. */
  function ClassifyArticle(title: string, keywords: seq<string>, description: string): (r: Classification)
    ensures var c := UnPeacekeeping.Combined(title, description);
      var topical := UnPeacekeeping.AnyIn(BiometricIndicators, c) || UnPeacekeeping.AnyIn(IdIndicators, c)
                     || UnPeacekeeping.AnyIn(PaymentIndicators, c);
      && (r.confidence == Med <==> topical && UnPeacekeeping.AnyIn(HighConfidenceIndicators, c))
      && (r.confidence == Low <==> !(topical && UnPeacekeeping.AnyIn(HighConfidenceIndicators, c)))
      && (r.categories == [SurveillancePrivacy] <==> !topical)
    ensures r.confidence != High
  {
    var c := UnPeacekeeping.Combined(title, description);
    var biometric := UnPeacekeeping.AnyIn(BiometricIndicators, c);
    var id := UnPeacekeeping.AnyIn(IdIndicators, c);
    var payment := UnPeacekeeping.AnyIn(PaymentIndicators, c);
    var high := UnPeacekeeping.AnyIn(HighConfidenceIndicators, c);
    Classification(CategoriesFor(biometric, id, payment),
                   if (biometric || id || payment) && high then Med else Low)
  }

  /** The result depends only on the title and the description. */
  lemma KeywordsIgnored(title: string, k1: seq<string>, k2: seq<string>, description: string)
    ensures ClassifyArticle(title, k1, description) == ClassifyArticle(title, k2, description)
  {
  }

  /** The table keeps the Med and High articles. */
  predicate InTable(a: Article) {
    var c := ClassifyArticle(a.title, a.keywords, a.description).confidence;
    c == Med || c == High
  }

  predicate IsMed(a: Article) {
    ClassifyArticle(a.title, a.keywords, a.description).confidence == Med
  }

  /** Since the classifier never says High, the table lists exactly the Med articles. */
  lemma TableIsMed(articles: seq<Article>)
    ensures Filter(articles, InTable) == Filter(articles, IsMed)
  {
    FilterSame(articles, InTable, IsMed);
  }
}
