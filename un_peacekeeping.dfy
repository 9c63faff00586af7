/**
  * UN peacekeeping news: keyword classification of an article, the numbers found in it, and
  * the feed pipeline (cleaning, date window, relevance filter, newest-first sort, top ten).
  */
module UnPeacekeeping {
  import opened Wrappers
  import opened Text
  import opened Ratings
  import opened Sorting
  import opened Pipeline
  import Html

  const WarKeywords: seq<string> := [
    "conflict", "fighting", "offensive", "attack", "rebel", "armed group",
    "violence", "clashes", "battle", "warfare", "military operation",
    "peacekeeping", "ceasefire", "armed conflict", "insurgency"]

  const CasualtyKeywords: seq<string> := [
    "casualties", "deaths", "killed", "wounded", "injured", "victims",
    "civilian casualties", "fatalities", "dead", "died"]

  const HumanitarianKeywords: seq<string> := [
    "displaced", "refugees", "humanitarian crisis", "emergency",
    "aid", "relief", "famine", "starvation", "persecution"]

  /** The keywords of `kws` that occur in `text`, in list order. */
  function Matches(kws: seq<string>, text: string): (r: seq<string>)
    ensures |r| <= |kws|
    ensures forall k :: k in r <==> k in kws && Contains(text, k)
  {
    if kws == [] then []
    else (if Contains(text, kws[0]) then [kws[0]] else []) + Matches(kws[1..], text)
  }

  /** The test of the list comprehension `[kw for kw in kws if kw in text]`. */
  function InText(text: string): string -> bool {
    k => Contains(text, k)
  }

  /** `Matches` is that list comprehension. */
  lemma {:induction false} MatchesIsFilter(kws: seq<string>, text: string)
    ensures Matches(kws, text) == Filter(kws, InText(text))
  {
    if kws != [] {
      MatchesIsFilter(kws[1..], text);
      assert kws == [kws[0]] + kws[1..];
      FilterCons(kws[0], kws[1..], InText(text));
    }
  }

  /** The matched keywords keep the list's order: the k-th is the list's k-th keyword found in the text. */
  lemma MatchesInListOrder(kws: seq<string>, text: string)
    ensures var pos := Positions(kws, InText(text));
      |Matches(kws, text)| == |pos| &&
      forall k :: 0 <= k < |pos| ==> Matches(kws, text)[k] == kws[pos[k]] && Contains(text, kws[pos[k]])
  {
    MatchesIsFilter(kws, text);
    FilterAtPositions(kws, InText(text));
  }

  // ---------------------------------------------------------------------------
  // Numbers in the text

  /** Length of the run of digits at the start of `s`. */
  function LeadingDigits(s: string): (n: nat)
    ensures n <= |s|
    ensures forall i :: 0 <= i < n ==> IsDigit(s[i])
    ensures n < |s| ==> !IsDigit(s[n])
  {
    if s != [] && IsDigit(s[0]) then 1 + LeadingDigits(s[1..]) else 0
  }

  /** The maximal digit runs of `s`, left to right (matches of `\d+`). */
  function DigitRuns(s: string): (r: seq<string>)
    decreases |s|
    ensures forall k :: 0 <= k < |r| ==> |r[k]| > 0 && AllDigits(r[k])
  {
    if s == [] then []
    else if !IsDigit(s[0]) then DigitRuns(s[1..])
    else
      var n := LeadingDigits(s);
      [s[..n]] + DigitRuns(s[n..])
  }

  lemma {:induction false} DigitRunsEmpty(s: string)
    ensures DigitRuns(s) == [] <==> !HasDigit(s)
  {
    if s != [] && !IsDigit(s[0]) {
      DigitRunsEmpty(s[1..]);
      assert HasDigit(s) ==> HasDigit(s[1..]) by {
        if HasDigit(s) {
          var i :| 0 <= i < |s| && IsDigit(s[i]);
          assert s[1..][i - 1] == s[i];
        }
      }
      assert HasDigit(s[1..]) ==> HasDigit(s) by {
        if HasDigit(s[1..]) {
          var i :| 0 <= i < |s[1..]| && IsDigit(s[1..][i]);
          assert s[i + 1] == s[1..][i];
        }
      }
    }
  }

  lemma LowerKeepsDigits(s: string)
    ensures HasDigit(Lower(s)) <==> HasDigit(s)
  {
    if HasDigit(s) {
      var i :| 0 <= i < |s| && IsDigit(s[i]);
      assert IsDigit(Lower(s)[i]);
    }
    if HasDigit(Lower(s)) {
      var i :| 0 <= i < |s| && IsDigit(Lower(s)[i]);
      assert IsDigit(s[i]);
    }
  }

  /**
    * `extract_numbers`: the first three maximal digit runs of the lower-cased text. The comma
    * groups of the number pattern, the other two patterns and the set's de-duplication are not
    * modelled.
    */
  function ExtractNumbers(text: string): (r: seq<string>)
    ensures |r| <= 5
    ensures r == [] <==> !HasDigit(text)
  {
    var runs := DigitRuns(Lower(text));
    DigitRunsEmpty(Lower(text));
    LowerKeepsDigits(text);
    Take(runs, 3)
  }

  // ---------------------------------------------------------------------------
  // Article classification

  datatype Category = Casualties | ActiveConflict | HumanitarianCrisis | ConflictWar | Peacekeeping

  datatype Classification = Classification(
    keywords: seq<string>, numbers: seq<string>, confidence: Confidence, category: Category, relevant: bool)

  function Combined(title: string, description: string): string {
    Lower(title + " " + description)
  }

  predicate ActiveWord(c: string) {
    Contains(c, "offensive") || Contains(c, "fighting") || Contains(c, "attack")
  }

  /** Some keyword of `kws` occurs in `c`. */
  predicate AnyIn(kws: seq<string>, c: string) {
    exists k :: k in kws && Contains(c, k)
  }

  /** The confidence cascade, over which keyword lists matched and whether numbers were found. */
  function ConfidenceFor(war: bool, casualty: bool, humanitarian: bool, numbers: bool, active: bool): Confidence {
    if casualty && numbers then High
    else if war && active then High
    else if humanitarian && numbers then Med
    else if war || casualty then Med
    else Low
  }

  /** The category cascade. */
  function CategoryFor(war: bool, casualty: bool, humanitarian: bool, active: bool): Category {
    if casualty then Casualties
    else if active then ActiveConflict
    else if humanitarian then HumanitarianCrisis
    else if war then ConflictWar
    else Peacekeeping
  }

  /** `classify_article`. */
  function ClassifyArticle(title: string, description: string): (r: Classification)
    ensures |r.keywords| <= 3
    ensures r.numbers == [] <==> !HasDigit(title + " " + description)
  {
    var c := Combined(title, description);
    var war := Matches(WarKeywords, c);
    var casualty := Matches(CasualtyKeywords, c);
    var humanitarian := Matches(HumanitarianKeywords, c);
    var numbers := ExtractNumbers(title + " " + description);
    var active := ActiveWord(c);
    Classification(Take(war + casualty + humanitarian, 3), numbers,
                   ConfidenceFor(war != [], casualty != [], humanitarian != [], numbers != [], active),
                   CategoryFor(war != [], casualty != [], humanitarian != [], active),
                   |war| > 0 || |casualty| > 0 || |humanitarian| > 0)
  }

  /** Relevant exactly when some list matched; irrelevant exactly in the 'Peacekeeping' category, and then Low. */
  lemma ClassifyRelevance(title: string, description: string)
    ensures var r := ClassifyArticle(title, description);
      var c := Combined(title, description);
      && (r.relevant <==> AnyIn(WarKeywords, c) || AnyIn(CasualtyKeywords, c) || AnyIn(HumanitarianKeywords, c))
      && (r.category == Peacekeeping <==> !r.relevant)
      && (!r.relevant ==> r.confidence == Low)
  {
    var c := Combined(title, description);
    MatchesNonEmpty(WarKeywords, c);
    MatchesNonEmpty(CasualtyKeywords, c);
    MatchesNonEmpty(HumanitarianKeywords, c);
    ActiveWordsAreWarKeywords(c);
  }

  /** A casualty keyword decides the category, and with a digit in the text the confidence too. */
  lemma CasualtiesDominate(title: string, description: string)
    requires AnyIn(CasualtyKeywords, Combined(title, description))
    ensures ClassifyArticle(title, description).category == Casualties
    ensures HasDigit(title + " " + description) ==> ClassifyArticle(title, description).confidence == High
  {
    MatchesNonEmpty(CasualtyKeywords, Combined(title, description));
  }

  /** The reported keywords are the first matches, war ones before casualty ones before humanitarian ones. */
  lemma KeywordsInListOrder(title: string, description: string)
    ensures var c := Combined(title, description);
      var all := Matches(WarKeywords, c) + Matches(CasualtyKeywords, c) + Matches(HumanitarianKeywords, c);
      var r := ClassifyArticle(title, description);
      |r.keywords| == (if |all| < 3 then |all| else 3) && forall i :: 0 <= i < |r.keywords| ==> r.keywords[i] == all[i]
  {
  }

  lemma MatchesNonEmpty(kws: seq<string>, c: string)
    ensures Matches(kws, c) != [] <==> AnyIn(kws, c)
  {
    if AnyIn(kws, c) {
      var k :| k in kws && Contains(c, k);
      assert k in Matches(kws, c);
    }
  }

  /** 'offensive', 'fighting' and 'attack' are themselves war keywords. */
  lemma ActiveWordsAreWarKeywords(c: string)
    ensures ActiveWord(c) ==> Matches(WarKeywords, c) != []
  {
    assert WarKeywords[1] == "fighting" && WarKeywords[2] == "offensive" && WarKeywords[3] == "attack";
    MatchesNonEmpty(WarKeywords, c);
  }

  /** An article that mentions peacekeeping is relevant and never lands in the 'Peacekeeping' category. */
  lemma PeacekeepingIsAWarKeyword(title: string, description: string)
    requires Contains(Combined(title, description), "peacekeeping")
    ensures ClassifyArticle(title, description).relevant
    ensures ClassifyArticle(title, description).category != Peacekeeping
  {
    assert WarKeywords[11] == "peacekeeping";
    ClassifyRelevance(title, description);
  }

  // ---------------------------------------------------------------------------
  // The feed

  datatype Article = Article(
    title: string, description: string, day: int, url: Option<string>,
    keywords: seq<string>, numbers: seq<string>, confidence: Confidence, category: Category)

  /** The cleaned title of an item that has one. */
  function CleanTitle(item: Item): string
    requires item.title.Some?
  {
    Html.CleanUn(item.title.value.text)
  }

  /** The cleaned description; a missing element cleans like a missing text. */
  function CleanDescription(item: Item): string {
    Html.CleanUn(if item.description.Some? then item.description.value.text else None)
  }

  /** The publication time used for the window: the parsed one, or `now` when it does not parse. */
  function TimeOrNow(published: Published, now: int): int
    requires !published.Missing?
  {
    if published.Parsed? then published.time else now
  }

  /**
    * What one item contributes: nothing without a title, link or date element, when older than
    * the cutoff, or when irrelevant. An unparseable date falls back to `now`. A kept article
    * carries the classification of its cleaned title and description.
    */
  function Candidate(item: Item, now: int, daysBack: int): (r: Option<Article>)
    ensures r.Some? <==> item.title.Some? && item.link.Some? && !item.published.Missing?
                         && TimeOrNow(item.published, now) >= now - daysBack * SecondsPerDay
                         && ClassifyArticle(CleanTitle(item), CleanDescription(item)).relevant
    ensures r.Some? ==> r.value.category != Peacekeeping && |r.value.description| <= 203
    ensures r.Some? ==> r.value.description == Truncate(CleanDescription(item), 200)
    ensures r.Some? ==> r.value.day >= (now - daysBack * SecondsPerDay) / SecondsPerDay
    ensures r.Some? ==>
      var c := ClassifyArticle(CleanTitle(item), CleanDescription(item));
      && r.value.title == CleanTitle(item)
      && r.value.keywords == c.keywords && r.value.confidence == c.confidence && r.value.category == c.category
  {
    if item.title.None? || item.link.None? || item.published.Missing? then None
    else
      var pub := TimeOrNow(item.published, now);
      if pub < now - daysBack * SecondsPerDay then None
      else
        var title := CleanTitle(item);
        var description := CleanDescription(item);
        var c := ClassifyArticle(title, description);
        if !c.relevant then None
        else Some(Article(title, Truncate(description, 200), pub / SecondsPerDay, item.link.value.text,
                          c.keywords, c.numbers, c.confidence, c.category))
  }

  /** Newest first, by publication day (the 'YYYY-MM-DD' strings compare as the days do). */
  function NewerOrSame(): (Article, Article) -> bool {
    (a: Article, b: Article) => a.day >= b.day
  }

  lemma NewerOrSameTotal()
    ensures TotalPreorder(NewerOrSame())
  {
  }

  /** `parse_news` over the extracted items. */
  method ParseNews(items: seq<Item>, now: int, daysBack: int) returns (articles: seq<Article>)
    ensures articles == SortDesc(FilterMap(items, Kept(now, daysBack)), NewerOrSame())
  {
    var kept := Collect(items, Kept(now, daysBack));
    articles := SortDesc(kept, NewerOrSame());
  }

  function Kept(now: int, daysBack: int): Item -> Option<Article> {
    item => Candidate(item, now, daysBack)
  }

  /**
    * The parsed news: newest first, ties in feed order, exactly the kept articles, all of them
    * relevant, inside the window and with descriptions of at most 200 characters plus '...'.
    */
  lemma ParseNewsResult(items: seq<Item>, now: int, daysBack: int, a: Article)
    ensures var k := FilterMap(items, Kept(now, daysBack));
      var r := SortDesc(k, NewerOrSame());
      && SortedDesc(r, NewerOrSame())
      && multiset(r) == multiset(k)
      && TiedWith(r, NewerOrSame(), a) == TiedWith(k, NewerOrSame(), a)
      && (a in r ==> a.category != Peacekeeping && |a.description| <= 203
                     && a.day >= (now - daysBack * SecondsPerDay) / SecondsPerDay)
  {
    var k := FilterMap(items, Kept(now, daysBack));
    NewerOrSameTotal();
    SortDescSorted(k, NewerOrSame());
    SortDescStable(k, NewerOrSame(), a);
    if a in SortDesc(k, NewerOrSame()) {
      assert a in multiset(k);
      var x :| x in items && Kept(now, daysBack)(x) == Some(a);
    }
  }

  /** The classification table lists the first ten articles. */
  function TableRows(articles: seq<Article>): (r: seq<Article>)
    ensures |r| == if |articles| < 10 then |articles| else 10
    ensures forall i :: 0 <= i < |r| ==> r[i] == articles[i]
  {
    Take(articles, 10)
  }

  /** On the sorted list, no article left out of the table is newer than one in it. */
  lemma TableHoldsNewest(articles: seq<Article>)
    requires SortedDesc(articles, NewerOrSame())
    ensures forall i, j :: 0 <= i < |TableRows(articles)| <= j < |articles| ==> TableRows(articles)[i].day >= articles[j].day
  {
    forall i, j | 0 <= i < |TableRows(articles)| <= j < |articles|
      ensures TableRows(articles)[i].day >= articles[j].day
    {
      assert NewerOrSame()(articles[i], articles[j]);
    }
  }
}
