/**
  * FRED economic indicators: the year-over-year change, the threshold assessment of one series,
  * the CRISIS/CONCERN counts and overall assessment of the daily review, and the rows passed on
  * to the classification table.
  */
module Economic {
  import opened Wrappers
  import opened Text
  import Pipeline

  /** Which rule applies to a series, chosen by substrings of its id, in this order. */
  datatype Kind = Unemployment | Inflation | Gdp | Trade | Other

  function KindOf(seriesId: string): Kind {
    if Contains(seriesId, "UNRATE") || Contains(seriesId, "U6RATE") then Unemployment
    else if Contains(seriesId, "CPI") || Contains(seriesId, "PCE") then Inflation
    else if Contains(seriesId, "GDP") || Contains(seriesId, "A191RL1") then Gdp
    else if Contains(seriesId, "BOPGSTB") then Trade
    else Other
  }

  datatype Config = Config(name: string, high: real, critical: real)

  /** The configured series: (category, series id, thresholds). */
  const Indicators: seq<(string, string, Config)> := [
    ("inflation", "CPIAUCSL", Config("Consumer Price Index (CPI-U)", 5.0, 10.0)),
    ("inflation", "PCEPI", Config("Personal Consumption Expenditures Price Index", 4.0, 8.0)),
    ("unemployment", "UNRATE", Config("Unemployment Rate", 7.0, 10.0)),
    ("unemployment", "U6RATE", Config("Total Unemployed + Marginally Attached + Part-Time", 12.0, 18.0)),
    ("gdp", "GDP", Config("Gross Domestic Product", -2.0, -5.0)),
    ("gdp", "A191RL1Q225SBEA", Config("Real GDP Growth Rate", -1.0, -3.0)),
    ("trade", "BOPGSTB", Config("Trade Balance: Goods and Services", -70.0, -100.0))
  ]

  /** Unemployment and inflation get worse upwards; GDP growth and the trade balance downwards. */
  predicate HigherIsWorse(k: Kind) {
    k == Unemployment || k == Inflation
  }

  function CategoryKind(category: string): Kind {
    if category == "unemployment" then Unemployment
    else if category == "inflation" then Inflation
    else if category == "gdp" then Gdp
    else if category == "trade" then Trade
    else Other
  }

  /** Each configured critical threshold lies strictly beyond its high threshold, in the harmful direction. */
  lemma ThresholdsOrdered()
    ensures forall e :: e in Indicators ==>
      if HigherIsWorse(CategoryKind(e.0)) then e.2.critical > e.2.high else e.2.critical < e.2.high
  {
  }

  /** Each configured series id selects the rule of its own category. */
  lemma ConfiguredKinds()
    ensures forall e :: e in Indicators ==> KindOf(e.1) == CategoryKind(e.0)
  {
    PriceAndJobIdKinds();
    GrowthIdKinds();
    TradeIdKind();
  }

  lemma PriceAndJobIdKinds()
    ensures KindOf("CPIAUCSL") == Inflation && KindOf("PCEPI") == Inflation
    ensures KindOf("UNRATE") == Unemployment && KindOf("U6RATE") == Unemployment
  {
    assert OccursAt("CPIAUCSL", "CPI", 0);
    MissingCharNotContained("CPIAUCSL", "UNRATE", 'N');
    MissingCharNotContained("CPIAUCSL", "U6RATE", '6');
    assert OccursAt("PCEPI", "PCE", 0);
    MissingCharNotContained("PCEPI", "UNRATE", 'U');
    MissingCharNotContained("PCEPI", "U6RATE", 'U');
    assert OccursAt("UNRATE", "UNRATE", 0);
    assert OccursAt("U6RATE", "U6RATE", 0);
  }

  lemma GrowthIdKinds()
    ensures KindOf("GDP") == Gdp && KindOf("A191RL1Q225SBEA") == Gdp
  {
    GdpIdKind();
    RealGdpIdKind();
  }

  lemma GdpIdKind()
    ensures KindOf("GDP") == Gdp
  {
    assert OccursAt("GDP", "GDP", 0);
    MissingCharNotContained("GDP", "UNRATE", 'U');
    MissingCharNotContained("GDP", "U6RATE", 'U');
    MissingCharNotContained("GDP", "CPI", 'C');
    MissingCharNotContained("GDP", "PCE", 'C');
  }

  lemma RealGdpIdKind()
    ensures KindOf("A191RL1Q225SBEA") == Gdp
  {
    assert OccursAt("A191RL1Q225SBEA", "A191RL1", 0);
    MissingCharNotContained("A191RL1Q225SBEA", "UNRATE", 'U');
    MissingCharNotContained("A191RL1Q225SBEA", "U6RATE", 'U');
    MissingCharNotContained("A191RL1Q225SBEA", "CPI", 'C');
    MissingCharNotContained("A191RL1Q225SBEA", "PCE", 'C');
    MissingCharNotContained("A191RL1Q225SBEA", "GDP", 'G');
  }

  lemma TradeIdKind()
    ensures KindOf("BOPGSTB") == Trade
  {
    assert OccursAt("BOPGSTB", "BOPGSTB", 0);
    MissingCharNotContained("BOPGSTB", "UNRATE", 'U');
    MissingCharNotContained("BOPGSTB", "U6RATE", 'U');
    MissingCharNotContained("BOPGSTB", "CPI", 'C');
    MissingCharNotContained("BOPGSTB", "PCE", 'C');
    MissingCharNotContained("BOPGSTB", "GDP", 'D');
    MissingCharNotContained("BOPGSTB", "A191RL1", 'A');
  }

  /** An observation; `None` stands for FRED's '.' placeholder. */
  datatype Observation = Observation(date: string, value: Option<real>)

  predicate HasValue(o: Observation) {
    o.value.Some?
  }

  /**
    * The observations that carry a value, in order and with their repeats: the k-th is the
    * observation at the k-th position holding a value.
    */
  function ValidObservations(obs: seq<Observation>): (r: seq<Observation>)
    ensures |r| == |Pipeline.Positions(obs, HasValue)|
    ensures forall k :: 0 <= k < |r| ==> r[k] == obs[Pipeline.Positions(obs, HasValue)[k]] && r[k].value.Some?
    ensures forall o :: o in obs && o.value.Some? ==> o in r
  {
    Pipeline.FilterAtPositions(obs, HasValue);
    Pipeline.Filter(obs, HasValue)
  }

  function Values(obs: seq<Observation>): (r: seq<real>)
    requires forall k :: 0 <= k < |obs| ==> obs[k].value.Some?
    ensures |r| == |obs|
    ensures forall k :: 0 <= k < |obs| ==> r[k] == obs[k].value.value
  {
    seq(|obs|, k requires 0 <= k < |obs| => obs[k].value.value)
  }

  /** The value 12 observations from the end, whose zero value the source would divide by. */
  predicate NonZeroBase(values: seq<real>) {
    |values| >= 12 ==> values[|values| - 12] != 0.0
  }

  /** `calculate_year_over_year_change`: percent change from `values[-12]` to `values[-1]`. */
  function YearOverYear(values: seq<real>): (r: Option<real>)
    requires NonZeroBase(values)
    ensures r.None? <==> |values| < 12
    ensures r.Some? ==> r.value * values[|values| - 12] == (values[|values| - 1] - values[|values| - 12]) * 100.0
  {
    if |values| < 12 then None
    else
      var latest, yearAgo := values[|values| - 1], values[|values| - 12];
      Some((latest - yearAgo) / yearAgo * 100.0)
  }

  /** With a positive base, the change is positive exactly when the latest value is higher. */
  lemma YearOverYearSign(values: seq<real>)
    requires |values| >= 12 && values[|values| - 12] > 0.0
    ensures YearOverYear(values).value > 0.0 <==> values[|values| - 1] > values[|values| - 12]
  {
    var r := YearOverYear(values).value;
    var base := values[|values| - 12];
    assert r * base == (values[|values| - 1] - base) * 100.0;
    if r > 0.0 {
      assert r * base > 0.0;
    } else {
      assert r * base <= 0.0;
    }
  }

  datatype Status = Crisis | Concern | Normal | Unknown | Error

  datatype Level = High | Med | Low | NotApplicable

  /** Confidence is a function of the status alone. */
  function ConfidenceFor(s: Status): (l: Level)
    ensures l == High <==> s == Crisis
    ensures l == Med <==> s == Concern
    ensures l == NotApplicable <==> s == Error
  {
    match s
    case Crisis => High
    case Concern => Med
    case Normal => Low
    case Unknown => Low
    case Error => NotApplicable
  }

  /** The reading has reached the threshold in the bad direction. */
  predicate Reaches(reading: real, threshold: real, higherWorse: bool) {
    if higherWorse then reading >= threshold else reading <= threshold
  }

  /**
    * The threshold cascade; `higherWorse` picks `>=` or `<=`. CRISIS at the critical threshold,
    * CONCERN short of it but at the high one, NORMAL short of both.
    */
  function Severity(reading: real, cfg: Config, higherWorse: bool): (s: Status)
    ensures s == Crisis || s == Concern || s == Normal
    ensures s == Crisis <==> Reaches(reading, cfg.critical, higherWorse)
    ensures s == Concern <==> !Reaches(reading, cfg.critical, higherWorse) && Reaches(reading, cfg.high, higherWorse)
    ensures s == Normal <==> !Reaches(reading, cfg.critical, higherWorse) && !Reaches(reading, cfg.high, higherWorse)
  {
    if higherWorse then
      if reading >= cfg.critical then Crisis else if reading >= cfg.high then Concern else Normal
    else
      if reading <= cfg.critical then Crisis else if reading <= cfg.high then Concern else Normal
  }

  function Rank(s: Status): nat {
    match s
    case Crisis => 2
    case Concern => 1
    case _ => 0
  }

  /** A worse reading never gets a less severe status. */
  lemma SeverityMonotone(x: real, y: real, cfg: Config, higherWorse: bool)
    requires if higherWorse then x <= y else y <= x
    ensures Rank(Severity(x, cfg, higherWorse)) <= Rank(Severity(y, cfg, higherWorse))
  {
  }

  /** With ordered thresholds each status has readings: the high threshold itself is CONCERN. */
  lemma SeverityBandsNonEmpty(cfg: Config, higherWorse: bool)
    requires if higherWorse then cfg.critical > cfg.high else cfg.critical < cfg.high
    ensures Severity(cfg.high, cfg, higherWorse) == Concern
    ensures Severity(cfg.critical, cfg, higherWorse) == Crisis
  {
  }

  datatype Assessment = Assessment(seriesId: string, status: Status, confidence: Level,
                                   latest: Option<real>, latestDate: Option<string>, yoy: Option<real>)

  /** What the source needs of the data: a zero year-ago value would be divided by. */
  predicate Assessable(data: Option<seq<Observation>>) {
    data.Some? ==> NonZeroBase(Values(ValidObservations(data.value)))
  }

  /**
    * `assess_indicator`. `data` is `None` when the fetch failed or had no 'observations'.
    */
  function Assess(seriesId: string, data: Option<seq<Observation>>, cfg: Config): (a: Assessment)
    requires Assessable(data)
    ensures a.confidence == ConfidenceFor(a.status)
    ensures a.status == Error <==> data.None? || ValidObservations(data.value) == []
    ensures a.status != Error ==>
      var values := Values(ValidObservations(data.value));
      var latest := values[|values| - 1];
      a.latest == Some(latest) && a.yoy == YearOverYear(values) &&
      match KindOf(seriesId)
      case Unemployment => a.status == Severity(latest, cfg, true)
      case Inflation => a.status == (if |values| < 12 then Unknown else Severity(a.yoy.value, cfg, true))
      case Gdp => a.status == (if |values| < 12 then Unknown else Severity(a.yoy.value, cfg, false))
      case Trade => a.status == Severity(latest / 1000.0, cfg, false)
      case Other => a.status == Unknown
  {
    if data.None? then Assessment(seriesId, Error, NotApplicable, None, None, None)
    else
      var valid := ValidObservations(data.value);
      if valid == [] then Assessment(seriesId, Error, NotApplicable, None, None, None)
      else AssessValid(seriesId, valid, cfg)
  }

  /** The part of `assess_indicator` after the check for an empty observation list. */
  function AssessValid(seriesId: string, valid: seq<Observation>, cfg: Config): (a: Assessment)
    requires valid != [] && forall k :: 0 <= k < |valid| ==> valid[k].value.Some?
    requires NonZeroBase(Values(valid))
    ensures a.confidence == ConfidenceFor(a.status) && a.status != Error
    ensures var values := Values(valid);
      var latest := values[|values| - 1];
      a.latest == Some(latest) && a.yoy == YearOverYear(values) &&
      match KindOf(seriesId)
      case Unemployment => a.status == Severity(latest, cfg, true)
      case Inflation => a.status == (if |values| < 12 then Unknown else Severity(a.yoy.value, cfg, true))
      case Gdp => a.status == (if |values| < 12 then Unknown else Severity(a.yoy.value, cfg, false))
      case Trade => a.status == Severity(latest / 1000.0, cfg, false)
      case Other => a.status == Unknown
  {
    var values := Values(valid);
    var latest := values[|values| - 1];
    var yoy := YearOverYear(values);
    var status :=
      match KindOf(seriesId)
      case Unemployment => Severity(latest, cfg, true)
      case Inflation => if yoy.None? then Unknown else Severity(yoy.value, cfg, true)
      case Gdp => if yoy.None? then Unknown else Severity(yoy.value, cfg, false)
      case Trade => Severity(latest / 1000.0, cfg, false)
      case Other => Unknown;
    Assessment(seriesId, status, ConfidenceFor(status), Some(latest), Some(valid[|valid| - 1].date), yoy)
  }

  // ---------------------------------------------------------------------------
  // Daily review summary

  function Count(s: seq<Assessment>, st: Status): (n: nat)
    ensures n <= |s|
  {
    if s == [] then 0 else Count(s[..|s| - 1], st) + (if s[|s| - 1].status == st then 1 else 0)
  }

  lemma {:induction false} CountAppend(a: seq<Assessment>, b: seq<Assessment>, st: Status)
    ensures Count(a + b, st) == Count(a, st) + Count(b, st)
    decreases |b|
  {
    if b != [] {
      CountAppend(a, b[..|b| - 1], st);
      assert (a + b)[..|a + b| - 1] == a + b[..|b| - 1];
    } else {
      assert a + b == a;
    }
  }

  /** The categories' lists, one after the other. */
  function Flatten(groups: seq<seq<Assessment>>): seq<Assessment> {
    if groups == [] then [] else Flatten(groups[..|groups| - 1]) + groups[|groups| - 1]
  }

  /** The overall assessment from the CRISIS and CONCERN counts. */
  function SummaryLevel(crisis: nat, concern: nat): (l: Level)
    ensures l == High <==> crisis >= 2
    ensures l == Med <==> crisis < 2 && (concern >= 3 || crisis >= 1)
    ensures l == Low <==> crisis == 0 && concern < 3
  {
    if crisis >= 2 then High
    else if concern >= 3 || crisis >= 1 then Med
    else Low
  }

  /**
    * The counting loop of `format_for_daily_review`: ERROR rows are skipped, CRISIS and CONCERN
    * rows counted.
    */
  method DailyReviewCounts(groups: seq<seq<Assessment>>) returns (crisis: nat, concern: nat, level: Level)
    ensures crisis == Count(Flatten(groups), Crisis)
    ensures concern == Count(Flatten(groups), Concern)
    ensures level == SummaryLevel(crisis, concern)
  {
    crisis, concern := 0, 0;
    var g := 0;
    while g < |groups|
      invariant 0 <= g <= |groups|
      invariant crisis == Count(Flatten(groups[..g]), Crisis)
      invariant concern == Count(Flatten(groups[..g]), Concern)
    {
      var inds := groups[g];
      var k := 0;
      while k < |inds|
        invariant 0 <= k <= |inds|
        invariant crisis == Count(Flatten(groups[..g]), Crisis) + Count(inds[..k], Crisis)
        invariant concern == Count(Flatten(groups[..g]), Concern) + Count(inds[..k], Concern)
      {
        assert inds[..k + 1][..k] == inds[..k];
        var ind := inds[k];
        if ind.status == Error {
          k := k + 1;
          continue;
        }
        if ind.status == Crisis {
          crisis := crisis + 1;
        } else if ind.status == Concern {
          concern := concern + 1;
        }
        k := k + 1;
      }
      assert inds[..k] == inds;
      assert groups[..g + 1][..g] == groups[..g];
      CountAppend(Flatten(groups[..g]), inds, Crisis);
      CountAppend(Flatten(groups[..g]), inds, Concern);
      g := g + 1;
    }
    assert groups[..g] == groups;
    level := SummaryLevel(crisis, concern);
  }

  predicate Reportable(a: Assessment) {
    a.status == Crisis || a.status == Concern
  }

  /** The assessments that reach the classification table. */
  function ReportedRows(s: seq<Assessment>): (r: seq<Assessment>)
    ensures |r| == Count(s, Crisis) + Count(s, Concern)
    ensures forall a :: a in r <==> a in s && Reportable(a)
  {
    if s == [] then []
    else
      var init := ReportedRows(s[..|s| - 1]);
      var last := s[|s| - 1];
      assert s == s[..|s| - 1] + [last];
      if Reportable(last) then init + [last] else init
  }

  /** One more indicator of the current category: its row is appended when it is reportable. */
  lemma ReportedRowsStep(done: seq<Assessment>, inds: seq<Assessment>, k: nat)
    requires k < |inds|
    ensures ReportedRows(done + inds[..k + 1]) ==
            ReportedRows(done + inds[..k]) + (if Reportable(inds[k]) then [inds[k]] else [])
  {
    var before := done + inds[..k];
    assert done + inds[..k + 1] == before + [inds[k]];
    assert (before + [inds[k]])[..|before|] == before;
  }

  lemma FlattenSnoc(groups: seq<seq<Assessment>>, g: nat)
    requires g < |groups|
    ensures Flatten(groups[..g + 1]) == Flatten(groups[..g]) + groups[g]
  {
    assert groups[..g + 1][..g] == groups[..g];
  }

  /** The classification-row loop of `main`, over the categories in order. */
  method ClassificationRows(groups: seq<seq<Assessment>>) returns (rows: seq<Assessment>)
    ensures rows == ReportedRows(Flatten(groups))
  {
    rows := [];
    var g := 0;
    while g < |groups|
      invariant 0 <= g <= |groups|
      invariant rows == ReportedRows(Flatten(groups[..g]))
    {
      var inds := groups[g];
      ghost var done := Flatten(groups[..g]);
      var k := 0;
      assert done + inds[..0] == done;
      while k < |inds|
        invariant 0 <= k <= |inds|
        invariant rows == ReportedRows(done + inds[..k])
      {
        ReportedRowsStep(done, inds, k);
        ghost var next := ReportedRows(done + inds[..k + 1]);
        if inds[k].status == Crisis || inds[k].status == Concern {
          rows := rows + [inds[k]];
        }
        assert rows == next;
        k := k + 1;
      }
      assert inds[..k] == inds;
      FlattenSnoc(groups, g);
      g := g + 1;
    }
    assert groups[..g] == groups;
  }
}
