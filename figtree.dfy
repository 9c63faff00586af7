/**
  * The "fig tree" pattern analyzer: six per-node intensity scores computed from the
  * aggregate rows of the database queries, their fixed-weight sum, and the phase label.
  */
module FigTree {
  import opened Ratings

  /** A node's intensity (0–100 when its inputs are in range) with its confidence. */
  datatype NodeScore = NodeScore(intensity: real, confidence: Confidence)

  function Min(a: real, b: real): real {
    if a <= b then a else b
  }

  // ---------------------------------------------------------------------------
  // J0 wars

  /** The conflicts query row: COUNT(*), 'Active Conflict' rows, 'Casualties' rows, summed casualties. */
  datatype ConflictRow = ConflictRow(total: nat, active: nat, casualtyReports: nat, deaths: nat)

  function WarsIntensity(row: ConflictRow): (r: NodeScore)
    ensures row.total == 0 ==> r == NodeScore(0.0, Low)
    ensures 0.0 <= r.intensity <= 100.0
    ensures row.total > 0 ==> (r.confidence == High <==> r.intensity >= 70.0)
    ensures row.total > 0 ==> (r.confidence == Med <==> 40.0 <= r.intensity < 70.0)
  {
    if row.total == 0 then NodeScore(0.0, Low)
    else
      var base := Min(row.active as real * 10.0, 60.0);
      var casualty := Min(row.casualtyReports as real * 10.0, 30.0);
      var death := Min(row.deaths as real / 1000.0, 10.0);
      var intensity := Min(base + casualty + death, 100.0);
      NodeScore(intensity, if intensity >= 70.0 then High else if intensity >= 40.0 then Med else Low)
  }

  /** The three capped terms already add up to at most 100, so the outer cap never changes the score. */
  lemma WarsOuterCapIdle(row: ConflictRow)
    requires row.total > 0
    ensures WarsIntensity(row).intensity ==
            Min(row.active as real * 10.0, 60.0) + Min(row.casualtyReports as real * 10.0, 30.0)
            + Min(row.deaths as real / 1000.0, 10.0)
  {
  }

  /** More active conflicts, casualty reports or deaths never lower the wars intensity. */
  lemma WarsMonotone(a: ConflictRow, b: ConflictRow)
    requires a.total > 0 && b.total > 0
    requires a.active <= b.active && a.casualtyReports <= b.casualtyReports && a.deaths <= b.deaths
    ensures WarsIntensity(a).intensity <= WarsIntensity(b).intensity
  {
  }

  // ---------------------------------------------------------------------------
  // J0 earthquakes

  /** The earthquakes query row: COUNT(*) and the magnitude >= 6.0 rows. */
  datatype QuakeRow = QuakeRow(total: nat, major: nat)

  /** The historical weekly earthquake count the frequency term is measured against. */
  const QuakeBaseline: real := 68.0

  function QuakesIntensity(row: QuakeRow, weeks: int): (r: NodeScore)
    requires weeks > 0
    ensures row.total == 0 ==> r == NodeScore(0.0, Low)
    ensures 0.0 <= r.intensity <= 100.0
    ensures r.confidence != High
    ensures row.total > 0 ==> (r.confidence == Med <==> r.intensity >= 50.0)
  {
    if row.total == 0 then NodeScore(0.0, Low)
    else
      var weeklyAvg := row.total as real / weeks as real;
      var base := Min(weeklyAvg / QuakeBaseline * 50.0, 70.0);
      var majorBonus := Min(row.major as real * 10.0, 30.0);
      var intensity := Min(base + majorBonus, 100.0);
      NodeScore(intensity, if intensity >= 70.0 then Med else if intensity >= 50.0 then Med else Low)
  }

  // ---------------------------------------------------------------------------
  // J0 famines

  function FaminesIntensity(reports: nat): (r: NodeScore)
    ensures reports == 0 ==> r == NodeScore(30.0, Low)
    ensures 0.0 <= r.intensity <= 100.0
    ensures r.confidence != High
    ensures r.confidence == Med <==> reports > 0 && r.intensity >= 60.0
  {
    if reports == 0 then NodeScore(30.0, Low)
    else
      var intensity := Min(reports as real * 15.0, 100.0);
      NodeScore(intensity, if intensity >= 60.0 then Med else if intensity >= 40.0 then Low else Low)
  }

  /** One report scores below the no-data floor: the famine score is not monotone in the report count. */
  lemma FaminesNotMonotone()
    ensures FaminesIntensity(1).intensity < FaminesIntensity(0).intensity
  {
  }

  /** From one report on, more reports never lower the score. */
  lemma FaminesMonotoneFromOne(m: nat, n: nat)
    requires 1 <= m <= n
    ensures FaminesIntensity(m).intensity <= FaminesIntensity(n).intensity
  {
  }

  // ---------------------------------------------------------------------------
  // J6 cosmic and B2 digital: placeholders that ignore the look-back window

  function CosmicIntensity(weeks: int): (r: NodeScore)
    ensures r.intensity == 5.0 && r.confidence == Low
  {
    NodeScore(5.0, Low)
  }

  function DigitalIntensity(weeks: int): (r: NodeScore)
    ensures r.intensity == 25.0 && r.confidence == Low
  {
    NodeScore(25.0, Low)
  }

  // ---------------------------------------------------------------------------
  // H0 economic

  /** The economic_indicators query row: COUNT(*), 'Crisis' rows, 'Concern' rows. */
  datatype EconomicRow = EconomicRow(total: nat, crisis: nat, concern: nat)

  function EconomicIntensity(row: EconomicRow): (r: NodeScore)
    ensures row.total == 0 ==> r == NodeScore(20.0, Low)
    ensures r.intensity >= 20.0
    ensures r.confidence == High <==> row.total > 0 && row.crisis > 0
    ensures r.confidence == Med <==> row.total > 0 && row.crisis == 0 && row.concern > 0
    ensures r.confidence == High ==> 80.0 <= r.intensity <= 100.0
    ensures r.confidence == Med ==> r.intensity >= 50.0
  {
    if row.total == 0 then NodeScore(20.0, Low)
    else if row.crisis > 0 then NodeScore(Min(70.0 + row.crisis as real * 10.0, 100.0), High)
    else if row.concern > 0 then NodeScore(40.0 + row.concern as real * 10.0, Med)
    else NodeScore(20.0, Low)
  }

  /** The concern branch has no cap: seven or more concern rows push the score past 100. */
  lemma EconomicConcernUncapped(row: EconomicRow)
    requires row.total > 0 && row.crisis == 0 && row.concern >= 7
    ensures EconomicIntensity(row).intensity > 100.0
  {
  }

  /** Every economic score stays within 0–100 except on the uncapped concern branch. */
  lemma EconomicBounded(row: EconomicRow)
    requires row.total == 0 || row.crisis > 0 || row.concern <= 6
    ensures EconomicIntensity(row).intensity <= 100.0
  {
  }

  // ---------------------------------------------------------------------------
  // Overall pattern strength

  datatype Node = Wars | Quakes | Famines | Cosmic | Economic | Digital

  datatype Intensities = Intensities(
    wars: NodeScore, quakes: NodeScore, famines: NodeScore,
    cosmic: NodeScore, economic: NodeScore, digital: NodeScore)
  {
    function Level(n: Node): real {
      match n
      case Wars => wars.intensity
      case Quakes => quakes.intensity
      case Famines => famines.intensity
      case Cosmic => cosmic.intensity
      case Economic => economic.intensity
      case Digital => digital.intensity
    }
  }

  /** Each node with its weight, in the order the weighted sum visits them. */
  const Weights: seq<(Node, real)> :=
    [(Wars, 0.25), (Quakes, 0.20), (Famines, 0.15), (Cosmic, 0.10), (Economic, 0.15), (Digital, 0.15)]

  /** Σ weight · intensity over `ws`, accumulated from the front. */
  function WeightedSum(ws: seq<(Node, real)>, i: Intensities): real {
    if ws == [] then 0.0
    else WeightedSum(ws[..|ws| - 1], i) + i.Level(ws[|ws| - 1].0) * ws[|ws| - 1].1
  }

  function WeightTotal(ws: seq<(Node, real)>): real {
    if ws == [] then 0.0 else WeightTotal(ws[..|ws| - 1]) + ws[|ws| - 1].1
  }

  predicate NonNegativeWeights(ws: seq<(Node, real)>) {
    forall k :: 0 <= k < |ws| ==> ws[k].1 >= 0.0
  }

  /** The six nodes each carry one weight, all weights are non-negative, and they add up to 1. */
  lemma WeightsAreConvex()
    ensures |Weights| == 6
    ensures forall k, l :: 0 <= k < l < |Weights| ==> Weights[k].0 != Weights[l].0
    ensures NonNegativeWeights(Weights)
    ensures WeightTotal(Weights) == 1.0
  {
    var w := Weights;
    assert w[..5][..4][..3][..2][..1][..0] == [];
    assert WeightTotal(w[..1]) == 0.25;
    assert WeightTotal(w[..2]) == 0.45 by { assert w[..2][..1] == w[..1]; }
    assert WeightTotal(w[..3]) == 0.60 by { assert w[..3][..2] == w[..2]; }
    assert WeightTotal(w[..4]) == 0.70 by { assert w[..4][..3] == w[..3]; }
    assert WeightTotal(w[..5]) == 0.85 by { assert w[..5][..4] == w[..4]; }
    assert w[..6] == w;
  }

  predicate InRange(i: Intensities) {
    forall n: Node :: 0.0 <= i.Level(n) <= 100.0
  }

  lemma {:induction false} WeightedSumBounds(ws: seq<(Node, real)>, i: Intensities)
    requires NonNegativeWeights(ws) && InRange(i)
    ensures 0.0 <= WeightedSum(ws, i) <= 100.0 * WeightTotal(ws)
  {
    if ws != [] {
      var last := ws[|ws| - 1];
      WeightedSumBounds(ws[..|ws| - 1], i);
      var level, w := i.Level(last.0), last.1;
      assert 0.0 <= level <= 100.0 && w >= 0.0;
      assert (100.0 - level) * w >= 0.0;
      assert 0.0 <= level * w <= 100.0 * w;
    }
  }

  lemma {:induction false} WeightedSumMonotone(ws: seq<(Node, real)>, a: Intensities, b: Intensities)
    requires NonNegativeWeights(ws)
    requires forall n: Node :: a.Level(n) <= b.Level(n)
    ensures WeightedSum(ws, a) <= WeightedSum(ws, b)
  {
    if ws != [] {
      var last := ws[|ws| - 1];
      WeightedSumMonotone(ws[..|ws| - 1], a, b);
      assert a.Level(last.0) <= b.Level(last.0) && last.1 >= 0.0;
      assert (b.Level(last.0) - a.Level(last.0)) * last.1 >= 0.0;
    }
  }

  /** With every node in 0–100 the overall score is in 0–100 as well. */
  lemma OverallBounded(i: Intensities)
    requires InRange(i)
    ensures 0.0 <= WeightedSum(Weights, i) <= 100.0
  {
    WeightsAreConvex();
    WeightedSumBounds(Weights, i);
  }

  /** Raising node intensities never lowers the overall score. */
  lemma OverallMonotone(a: Intensities, b: Intensities)
    requires forall n: Node :: a.Level(n) <= b.Level(n)
    ensures WeightedSum(Weights, a) <= WeightedSum(Weights, b)
  {
    WeightsAreConvex();
    WeightedSumMonotone(Weights, a, b);
  }

  datatype Phase = Advanced | Active | Early | Monitoring

  /** The four bands of the overall score; a boundary value belongs to the higher band. */
  function PhaseOf(x: real): (p: Phase)
    ensures p == Advanced <==> x >= 70.0
    ensures p == Active <==> 50.0 <= x < 70.0
    ensures p == Early <==> 30.0 <= x < 50.0
    ensures p == Monitoring <==> x < 30.0
  {
    if x >= 70.0 then Advanced
    else if x >= 50.0 then Active
    else if x >= 30.0 then Early
    else Monitoring
  }

  function PhaseRank(p: Phase): nat {
    match p
    case Monitoring => 0
    case Early => 1
    case Active => 2
    case Advanced => 3
  }

  /** A higher score never gives a lower phase. */
  lemma PhaseMonotone(x: real, y: real)
    requires x <= y
    ensures PhaseRank(PhaseOf(x)) <= PhaseRank(PhaseOf(y))
  {
  }

  /** The weighted sum, accumulated in a loop over the weights, and its phase. */
  method OverallPatternStrength(i: Intensities) returns (total: real, phase: Phase)
    ensures total == WeightedSum(Weights, i)
    ensures phase == PhaseOf(total)
  {
    total := 0.0;
    var k := 0;
    while k < |Weights|
      invariant 0 <= k <= |Weights|
      invariant total == WeightedSum(Weights[..k], i)
    {
      assert Weights[..k + 1][..k] == Weights[..k];
      total := total + i.Level(Weights[k].0) * Weights[k].1;
      k := k + 1;
    }
    assert Weights[..k] == Weights;
    phase := PhaseOf(total);
  }

  /** The six node scores for one look-back window. */
  function Analyze(wars: ConflictRow, quakes: QuakeRow, famineReports: nat, economic: EconomicRow, weeks: int): (r: Intensities)
    requires weeks > 0
    ensures (economic.total == 0 || economic.crisis > 0 || economic.concern <= 6) ==> InRange(r)
  {
    Intensities(WarsIntensity(wars), QuakesIntensity(quakes, weeks), FaminesIntensity(famineReports),
                CosmicIntensity(weeks), EconomicIntensity(economic), DigitalIntensity(weeks))
  }

  /** The analyzer's overall score stays within 0–100 unless the economic concern branch overflows. */
  lemma AnalyzeOverallBounded(wars: ConflictRow, quakes: QuakeRow, famineReports: nat, economic: EconomicRow, weeks: int)
    requires weeks > 0
    requires economic.total == 0 || economic.crisis > 0 || economic.concern <= 6
    ensures 0.0 <= WeightedSum(Weights, Analyze(wars, quakes, famineReports, economic, weeks)) <= 100.0
  {
    OverallBounded(Analyze(wars, quakes, famineReports, economic, weeks));
  }
}
