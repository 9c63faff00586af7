/**
  * The weekly newsletter's own copy of the fig-tree scoring (with different formulas),
  * its season labels, headline choice, quake-section confidence, week-over-week tracker
  * and economic crisis count.
  */
module Newsletter {
  import opened Ratings
  import opened FigTree
  import opened Wrappers
  import Weekly

  /** Wars ignores casualty reports and death tolls here. */
  function NlWars(total: nat, active: nat): (r: real)
    ensures total == 0 ==> r == 0.0
    ensures 0.0 <= r <= 100.0
    ensures total > 0 && active >= 10 ==> r == 100.0
  {
    if total == 0 then 0.0 else Min(active as real * 10.0, 100.0)
  }

  /** Quakes has no per-term caps: only the sum is capped at 100. */
  function NlQuakes(row: QuakeRow, weeks: int): (r: real)
    requires weeks > 0
    ensures row.total == 0 ==> r == 0.0
    ensures 0.0 <= r <= 100.0
  {
    if row.total > 0 then
      var weeklyAvg := row.total as real / weeks as real;
      Min(weeklyAvg / QuakeBaseline * 50.0 + row.major as real * 10.0, 100.0)
    else 0.0
  }

  function NlFamines(count: nat): (r: real)
    ensures count == 0 ==> r == 30.0
    ensures r == FaminesIntensity(count).intensity
  {
    if count > 0 then Min(count as real * 15.0, 100.0) else 30.0
  }

  /** `crisisRows` is the SUM over the economic rows; no rows at all counts as zero. */
  function NlEconomic(crisisRows: nat): (r: real)
    ensures r == 70.0 <==> crisisRows > 0
    ensures r == 20.0 <==> crisisRows == 0
  {
    if crisisRows > 0 then 70.0 else 20.0
  }

  const NlCosmic: real := 5.0
  const NlDigital: real := 25.0

  /** The newsletter's (weight, intensity) pairs, summed in this order. */
  function NlOverall(wars: real, quakes: real, famines: real, economic: real): real {
    var pairs := [(0.25, wars), (0.20, quakes), (0.15, famines), (0.10, NlCosmic), (0.15, economic), (0.15, NlDigital)];
    PairSum(pairs)
  }

  function PairSum(pairs: seq<(real, real)>): real {
    if pairs == [] then 0.0 else PairSum(pairs[..|pairs| - 1]) + pairs[|pairs| - 1].0 * pairs[|pairs| - 1].1
  }

  /** The same scores as the analyzer's six nodes, with no confidence attached. */
  function AsIntensities(wars: real, quakes: real, famines: real, economic: real): Intensities {
    Intensities(NodeScore(wars, Low), NodeScore(quakes, Low), NodeScore(famines, Low),
                NodeScore(NlCosmic, Low), NodeScore(economic, Low), NodeScore(NlDigital, Low))
  }

  /** The newsletter's overall score uses exactly the analyzer's weights. */
  lemma NlOverallMatchesAnalyzer(wars: real, quakes: real, famines: real, economic: real)
    ensures NlOverall(wars, quakes, famines, economic) == WeightedSum(Weights, AsIntensities(wars, quakes, famines, economic))
  {
    var i := AsIntensities(wars, quakes, famines, economic);
    var pairs: seq<(real, real)> := [(0.25, wars), (0.20, quakes), (0.15, famines), (0.10, NlCosmic), (0.15, economic), (0.15, NlDigital)];
    assert pairs[..5][..4][..3][..2][..1][..0] == [];
    assert Weights[..5][..4][..3][..2][..1][..0] == [];
    assert PairSum(pairs[..1]) == WeightedSum(Weights[..1], i);
    assert PairSum(pairs[..2]) == WeightedSum(Weights[..2], i) by {
      assert pairs[..2][..1] == pairs[..1] && Weights[..2][..1] == Weights[..1];
    }
    assert PairSum(pairs[..3]) == WeightedSum(Weights[..3], i) by {
      assert pairs[..3][..2] == pairs[..2] && Weights[..3][..2] == Weights[..2];
    }
    assert PairSum(pairs[..4]) == WeightedSum(Weights[..4], i) by {
      assert pairs[..4][..3] == pairs[..3] && Weights[..4][..3] == Weights[..3];
    }
    assert PairSum(pairs[..5]) == WeightedSum(Weights[..5], i) by {
      assert pairs[..5][..4] == pairs[..4] && Weights[..5][..4] == Weights[..4];
    }
    assert pairs[..6] == pairs && Weights[..6] == Weights;
  }

  /** The newsletter's overall score is in 0–100: all its node scores are. */
  lemma NlOverallBounded(total: nat, active: nat, quakes: QuakeRow, famineCount: nat, crisisRows: nat, days: int)
    ensures var o := NlOverall(NlWars(total, active), NlQuakes(quakes, Weekly.Weeks(days)), NlFamines(famineCount), NlEconomic(crisisRows));
            0.0 <= o <= 100.0
  {
    var w, q, f, e := NlWars(total, active), NlQuakes(quakes, Weekly.Weeks(days)), NlFamines(famineCount), NlEconomic(crisisRows);
    NlOverallMatchesAnalyzer(w, q, f, e);
    OverallBounded(AsIntensities(w, q, f, e));
  }

  /** The analyzer never scores quakes above the newsletter on the same row and window. */
  lemma AnalyzerQuakesAtMostNewsletter(row: QuakeRow, weeks: int)
    requires weeks > 0
    ensures QuakesIntensity(row, weeks).intensity <= NlQuakes(row, weeks)
  {
  }

  /** Four quakes in a week, all major: the newsletter's uncapped major bonus scores ten points higher. */
  lemma QuakeFormulasDiffer()
    ensures QuakesIntensity(QuakeRow(4, 4), 1).intensity + 10.0 == NlQuakes(QuakeRow(4, 4), 1)
  {
  }

  /** Eight active conflicts: the newsletter scores 80 where the analyzer caps active conflicts at 60. */
  lemma WarsFormulasDiffer()
    ensures WarsIntensity(ConflictRow(8, 8, 0, 0)).intensity == 60.0
    ensures NlWars(8, 8) == 80.0
  {
  }

  datatype Season = LateSpring | MidSpring | EarlySpring | Winter

  /** The season shown beside each phase of the overall score. */
  function SeasonOf(p: Phase): (s: Season)
    ensures s == LateSpring <==> p == Advanced
    ensures s == Winter <==> p == Monitoring
  {
    match p
    case Advanced => LateSpring
    case Active => MidSpring
    case Early => EarlySpring
    case Monitoring => Winter
  }

  /** The newsletter's bands are the analyzer's phase bands. */
  lemma SeasonBands(overall: real)
    ensures SeasonOf(PhaseOf(overall)) == LateSpring <==> overall >= 70.0
    ensures SeasonOf(PhaseOf(overall)) == MidSpring <==> 50.0 <= overall < 70.0
    ensures SeasonOf(PhaseOf(overall)) == EarlySpring <==> 30.0 <= overall < 50.0
    ensures SeasonOf(PhaseOf(overall)) == Winter <==> overall < 30.0
  {
  }

  datatype Headline = AiHeadline(text: string) | MarkersElevated | PatternsObserved | QuakeCount(n: nat) | Watching

  /** A non-empty AI headline wins; otherwise the first template whose condition holds. */
  function ChooseHeadline(ai: string, overall: real, quakeTotal: nat): (h: Headline)
    ensures ai != [] <==> h.AiHeadline?
    ensures h.AiHeadline? ==> h.text == ai
    ensures h == MarkersElevated <==> ai == [] && overall >= 70.0
    ensures h == PatternsObserved <==> ai == [] && 50.0 <= overall < 70.0
    ensures h.QuakeCount? <==> ai == [] && overall < 50.0 && quakeTotal >= 50
    ensures h.QuakeCount? ==> h.n == quakeTotal
  {
    if ai != [] then AiHeadline(ai)
    else if overall >= 70.0 then MarkersElevated
    else if overall >= 50.0 then PatternsObserved
    else if quakeTotal >= 50 then QuakeCount(quakeTotal)
    else Watching
  }

  /** Confidence of the earthquake section (shown only when there were earthquakes). */
  function QuakeSectionConfidence(total: nat, major: nat): (c: Confidence)
    ensures c == High <==> major >= 2
    ensures c == Med <==> major < 2 && total >= 50
  {
    if major >= 2 then High else if total >= 50 then Med else Low
  }

  datatype Arrow = Up | Down | Flat

  /** One tracker line: the arrow and, when the count moved, the signed change. */
  datatype Change = Change(arrow: Arrow, delta: Option<int>)

  /** The week-over-week tracker line for one count; absent when last week's count is 0. */
  function WeekOverWeek(thisWeek: nat, lastWeek: nat): (r: Option<Change>)
    ensures r.Some? <==> lastWeek > 0
    ensures r.Some? ==> (r.value.arrow == Up <==> thisWeek > lastWeek)
    ensures r.Some? ==> (r.value.arrow == Down <==> thisWeek < lastWeek)
    ensures r.Some? ==> (r.value.arrow == Flat <==> thisWeek == lastWeek)
    ensures r.Some? ==> (r.value.delta.Some? <==> thisWeek != lastWeek)
    ensures r.Some? && r.value.delta.Some? ==> lastWeek + r.value.delta.value == thisWeek
  {
    if lastWeek > 0 then
      var change := thisWeek - lastWeek;
      var arrow := if change > 0 then Up else if change < 0 then Down else Flat;
      Some(Change(arrow, if change != 0 then Some(change) else None))
    else None
  }

  /** Number of 'Crisis' statuses among the latest economic rows. */
  function CrisisCount(statuses: seq<string>): (n: nat)
    ensures n <= |statuses|
  {
    if statuses == [] then 0
    else CrisisCount(statuses[..|statuses| - 1]) + (if statuses[|statuses| - 1] == "Crisis" then 1 else 0)
  }

  /** `has_crisis` holds exactly when some row has status 'Crisis'. */
  lemma {:induction false} HasCrisisIff(statuses: seq<string>)
    ensures CrisisCount(statuses) > 0 <==> exists k :: 0 <= k < |statuses| && statuses[k] == "Crisis"
  {
    if statuses != [] {
      var init := statuses[..|statuses| - 1];
      HasCrisisIff(init);
      if exists k :: 0 <= k < |init| && init[k] == "Crisis" {
        var k :| 0 <= k < |init| && init[k] == "Crisis";
        assert statuses[k] == "Crisis";
      }
      if exists k :: 0 <= k < |statuses| && statuses[k] == "Crisis" {
        var k :| 0 <= k < |statuses| && statuses[k] == "Crisis";
        if k < |init| {
          assert init[k] == "Crisis";
        }
      }
    }
  }
}
