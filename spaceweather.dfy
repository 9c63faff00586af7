/**
  * NOAA space-weather alerts: the severity cascade over an alert's message, the electron-flux
  * reading inside a message, prophetic relevance, the per-severity buckets and the assessment.
  */
module SpaceWeather {
  import opened Wrappers
  import opened Text
  import opened Ratings

  datatype Severity = Critical | Severe | Major | Moderate | Minor | Info

  /** An alert as fetched: its message may be missing. */
  datatype Alert = Alert(message: Option<string>)

  /** The severity and confidence the classifier reports. */
  datatype Classification = Classification(severity: Severity, confidence: Confidence)

  /** The confidence every branch of the classifier attaches to a severity. */
  function ConfidenceOf(s: Severity): (c: Confidence)
    ensures c == High <==> s == Critical || s == Severe
    ensures c == Med <==> s == Major || s == Moderate
    ensures c == Low <==> s == Minor || s == Info
  {
    match s
    case Critical => High
    case Severe => High
    case Major => Med
    case Moderate => Med
    case Minor => Low
    case Info => Low
  }

  function Rated(s: Severity): Classification {
    Classification(s, ConfidenceOf(s))
  }

  const FluxMarker: string := "MAXIMUM 2MEV FLUX:"

  /**
    * The integer between the flux marker and 'PFU' (the text after the first marker, cut at a
    * second marker if any, then at 'PFU', then trimmed); None without a marker or a number.
    */
  function ExtractFlux(u: string): (r: Option<int>)
    ensures !Contains(u, FluxMarker) ==> r.None?
    ensures Contains(u, FluxMarker) ==> r == ParseInt(FluxText(u))
  {
    if Contains(u, FluxMarker) then ParseInt(FluxText(u)) else None
  }

  /** The text `int()` is given: after the first marker, cut at a second marker and at 'PFU', trimmed. */
  function FluxText(u: string): string {
    Strip(Before(Before(After(u, FluxMarker), FluxMarker), "PFU"))
  }

  /** A reading needs a digit after the marker: text with no digit there yields None. */
  lemma ExtractFluxNeedsDigit(u: string)
    ensures ExtractFlux(u).Some? ==> HasDigit(After(u, FluxMarker))
  {
    if ExtractFlux(u).Some? {
      var a := After(u, FluxMarker);
      var b1 := Before(a, FluxMarker);
      var b2 := Before(b1, "PFU");
      var t := Strip(b2);
      assert HasDigit(t);
      var x, y :| 0 <= x <= y <= |b2| && t == b2[x..y];
      SliceDigit(b2, x, y);
      BeforePrefix(b1, "PFU");
      SliceDigit(b1, 0, |b2|);
      BeforePrefix(a, FluxMarker);
      SliceDigit(a, 0, |b1|);
    }
  }

  /** Electron-flux alerts: a missing or zero reading counts as minor. */
  function ElectronSeverity(flux: Option<int>): (s: Severity)
    ensures s == Severe <==> flux.Some? && flux.value > 10000
    ensures s == Moderate <==> flux.Some? && 5000 < flux.value <= 10000
    ensures s == Minor <==> flux.None? || flux.value <= 5000
  {
    if flux.Some? && flux.value != 0 && flux.value > 10000 then Severe
    else if flux.Some? && flux.value != 0 && flux.value > 5000 then Moderate
    else Minor
  }

  /** Geomagnetic storms, by G-scale level or by the scale's word. */
  function GScale(u: string): Option<Severity> {
    if Contains(u, "G5") || Contains(u, "EXTREME") then Some(Critical)
    else if Contains(u, "G4") || Contains(u, "SEVERE") then Some(Severe)
    else if Contains(u, "G3") || Contains(u, "STRONG") then Some(Major)
    else if Contains(u, "G2") || Contains(u, "MODERATE") then Some(Moderate)
    else if Contains(u, "G1") || Contains(u, "MINOR") then Some(Minor)
    else None
  }

  /** Solar radiation storms: only S3 and above are recognised. */
  function SScale(u: string): Option<Severity> {
    if Contains(u, "S5") then Some(Critical)
    else if Contains(u, "S4") then Some(Severe)
    else if Contains(u, "S3") then Some(Major)
    else None
  }

  /** Radio blackouts: only R3 and above are recognised. */
  function RScale(u: string): Option<Severity> {
    if Contains(u, "R5") then Some(Critical)
    else if Contains(u, "R4") then Some(Severe)
    else if Contains(u, "R3") then Some(Major)
    else None
  }

  function ElectronRule(u: string): Option<Severity> {
    if Contains(u, "ELECTRON") && Contains(u, "2MEV") then Some(ElectronSeverity(ExtractFlux(u)))
    else None
  }

  /** K-index warnings; one without a level 4-9 phrase matches nothing. */
  function KIndexRule(u: string): Option<Severity> {
    if !Contains(u, "K-INDEX") then None
    else if Contains(u, "K-INDEX OF 8") || Contains(u, "K-INDEX OF 9") then Some(Critical)
    else if Contains(u, "K-INDEX OF 7") then Some(Severe)
    else if Contains(u, "K-INDEX OF 6") then Some(Major)
    else if Contains(u, "K-INDEX OF 5") then Some(Moderate)
    else if Contains(u, "K-INDEX OF 4") then Some(Minor)
    else None
  }

  /** The first rule (G, S, R, electron, K-index) that matches the upper-cased text, else INFO. */
  function ClassifyUpper(u: string): Severity {
    if GScale(u).Some? then GScale(u).value
    else if SScale(u).Some? then SScale(u).value
    else if RScale(u).Some? then RScale(u).value
    else if ElectronRule(u).Some? then ElectronRule(u).value
    else if KIndexRule(u).Some? then KIndexRule(u).value
    else Info
  }

  /** `classify_alert_severity`: the message (empty when missing) is upper-cased first. */
  function Classify(a: Alert): (c: Classification)
    ensures c.confidence == ConfidenceOf(c.severity)
    ensures c.severity == ClassifyUpper(Upper(a.message.GetOr("")))
  {
    Rated(ClassifyUpper(Upper(a.message.GetOr(""))))
  }

  /** Classification ignores letter case. */
  lemma ClassifyIgnoresCase(m1: string, m2: string)
    requires Upper(m1) == Upper(m2)
    ensures Classify(Alert(Some(m1))) == Classify(Alert(Some(m2)))
    ensures Classify(Alert(Some(m1))) == Classify(Alert(Some(Upper(m1))))
  {
    UpperIdempotent(m1);
  }

  /** A G-scale match decides the severity, whatever S, R, electron or K-index text follows. */
  lemma GScaleWins(m: string)
    requires GScale(Upper(m)).Some?
    ensures Classify(Alert(Some(m))).severity == GScale(Upper(m)).value
  {
  }

  /** A message naming G1 and S5 (and nothing stronger on the G-scale) is minor, not critical. */
  lemma MinorStormBeforeRadiation()
    ensures Classify(Alert(Some("g1 s5"))).severity == Minor
  {
    var u := Upper("g1 s5");
    assert u == "G1 S5";
    assert OccursAt(u, "G1", 0);
    MissingCharNotContained(u, "EXTREME", 'X');
    MissingCharNotContained(u, "SEVERE", 'V');
    MissingCharNotContained(u, "STRONG", 'T');
    MissingCharNotContained(u, "MODERATE", 'M');
    NoLevelAfterG(u, "G5");
    NoLevelAfterG(u, "G4");
    NoLevelAfterG(u, "G3");
    NoLevelAfterG(u, "G2");
  }

  /** In "G1 S5" the only 'G' is followed by '1'. */
  lemma NoLevelAfterG(u: string, g: string)
    requires u == "G1 S5" && |g| == 2 && g[0] == 'G' && g[1] != '1'
    ensures !Contains(u, g)
  {
    forall i: nat | i <= |u| ensures !OccursAt(u, g, i) {
      if i + 2 <= |u| {
        assert u[i..i + 2][0] == u[i] && u[i..i + 2][1] == u[i + 1];
      }
    }
  }

  /** A K-index message with no level 4-9 phrase, and no earlier match, is INFO / Low. */
  lemma KIndexFallsThrough(m: string)
    requires var u := Upper(m);
      GScale(u).None? && SScale(u).None? && RScale(u).None? && ElectronRule(u).None?
      && Contains(u, "K-INDEX")
      && !Contains(u, "K-INDEX OF 4") && !Contains(u, "K-INDEX OF 5") && !Contains(u, "K-INDEX OF 6")
      && !Contains(u, "K-INDEX OF 7") && !Contains(u, "K-INDEX OF 8") && !Contains(u, "K-INDEX OF 9")
    ensures Classify(Alert(Some(m))) == Classification(Info, Low)
  {
  }

  /** The flux reading written in the NOAA form is read back exactly. */
  lemma ExtractFluxReading(n: nat)
    ensures ExtractFlux(FluxMarker + " " + DecimalString(n) + " PFU") == Some(n)
  {
    var d := DecimalString(n);
    var t := " " + d + " PFU";
    assert FluxMarker + " " + d + " PFU" == FluxMarker + t;
    AfterLeadingMarker(t);
    PaddedReading(d);
    MissingCharNotContained(t, FluxMarker, 'M');
    StripPadded(d);
    ParseIntDecimal(n);
  }

  /** The text after a leading marker is the rest of the message. */
  lemma AfterLeadingMarker(t: string)
    ensures Contains(FluxMarker + t, FluxMarker)
    ensures After(FluxMarker + t, FluxMarker) == t
  {
    var u := FluxMarker + t;
    assert u[..|FluxMarker|] == FluxMarker;
    assert OccursAt(u, FluxMarker, 0);
    FirstOccurrence(u, FluxMarker, 0);
    assert u[|FluxMarker|..] == t;
  }

  /** In " <digits> PFU" there is no 'M', and the text before 'PFU' is " <digits> ". */
  lemma PaddedReading(d: string)
    requires |d| > 0 && AllDigits(d)
    ensures 'M' !in " " + d + " PFU"
    ensures Before(" " + d + " PFU", "PFU") == " " + d + " "
  {
    var t := " " + d + " PFU";
    forall k | 0 <= k < |t| ensures t[k] != 'M' && (k < |d| + 2 ==> t[k] != 'P') {
      if 1 <= k < 1 + |d| {
        assert t[k] == d[k - 1];
      }
    }
    var k := |d| + 2;
    assert t[k..k + 3] == "PFU";
    FirstOccurrence(t, "PFU", k);
    assert t[..k] == " " + d + " ";
  }

  /** `is_prophetically_relevant`: only MAJOR and above. */
  function Relevant(s: Severity): (b: bool)
    ensures b <==> s in {Critical, Severe, Major}
  {
    s == Critical || s == Severe || s == Major
  }

  // ---------------------------------------------------------------------------
  // Buckets and assessment

  /** Indices below `n` of the alerts classified as `s`, in arrival order. */
  function Bucket(alerts: seq<Alert>, s: Severity, n: nat): (r: seq<nat>)
    requires n <= |alerts|
    ensures forall k :: 0 <= k < |r| ==> r[k] < n
  {
    if n == 0 then []
    else Bucket(alerts, s, n - 1) + (if Classify(alerts[n - 1]).severity == s then [n - 1] else [])
  }

  /** An alert is in the bucket of its own severity, and only there. */
  lemma {:induction false} BucketMembership(alerts: seq<Alert>, s: Severity, n: nat, i: nat)
    requires n <= |alerts|
    ensures i in Bucket(alerts, s, n) <==> i < n && Classify(alerts[i]).severity == s
  {
    if n > 0 {
      BucketMembership(alerts, s, n - 1, i);
    }
  }

  function BucketSizes(alerts: seq<Alert>, n: nat): nat
    requires n <= |alerts|
  {
    |Bucket(alerts, Critical, n)| + |Bucket(alerts, Severe, n)| + |Bucket(alerts, Major, n)|
    + |Bucket(alerts, Moderate, n)| + |Bucket(alerts, Minor, n)| + |Bucket(alerts, Info, n)|
  }

  /** The six buckets together hold every alert exactly once. */
  lemma {:induction false} BucketsPartition(alerts: seq<Alert>, n: nat)
    requires n <= |alerts|
    ensures BucketSizes(alerts, n) == n
  {
    if n > 0 {
      BucketsPartition(alerts, n - 1);
    }
  }

  const Levels: seq<Severity> := [Critical, Severe, Major, Moderate, Minor, Info]

  /** The `by_severity` dictionary, filled alert by alert. */
  method BucketBySeverity(alerts: seq<Alert>) returns (buckets: map<Severity, seq<nat>>)
    ensures forall s :: s in buckets
    ensures forall s :: buckets[s] == Bucket(alerts, s, |alerts|)
  {
    buckets := map[Critical := [], Severe := [], Major := [], Moderate := [], Minor := [], Info := []];
    assert forall s :: s in buckets by {
      forall s ensures s in buckets {
        match s
        case Critical =>
        case Severe =>
        case Major =>
        case Moderate =>
        case Minor =>
        case Info =>
      }
    }
    var i := 0;
    while i < |alerts|
      invariant i <= |alerts|
      invariant forall s :: s in buckets && buckets[s] == Bucket(alerts, s, i)
    {
      var c := Classify(alerts[i]);
      buckets := buckets[c.severity := buckets[c.severity] + [i]];
      i := i + 1;
    }
  }

  datatype Assessment = CriticalDetected(count: nat) | SevereDetected(count: nat) | MajorDetected(count: nat) | Routine

  /** The summary names the highest non-empty bucket among CRITICAL, SEVERE and MAJOR. */
  function Assess(critical: nat, severe: nat, major: nat): (a: Assessment)
    ensures a.CriticalDetected? <==> critical > 0
    ensures a.SevereDetected? <==> critical == 0 && severe > 0
    ensures a.MajorDetected? <==> critical == 0 && severe == 0 && major > 0
    ensures a == Routine <==> critical + severe + major == 0
    ensures !a.Routine? ==> a.count > 0
  {
    if critical > 0 then CriticalDetected(critical)
    else if severe > 0 then SevereDetected(severe)
    else if major > 0 then MajorDetected(major)
    else Routine
  }

  /** The classification-table rows: the CRITICAL, then SEVERE, then MAJOR buckets. */
  function ReportRows(buckets: map<Severity, seq<nat>>): seq<nat>
    requires forall s :: s in buckets
  {
    buckets[Critical] + buckets[Severe] + buckets[Major]
  }

  /** Every reported row is a relevant alert, and every relevant alert is reported. */
  lemma ReportRowsRelevant(alerts: seq<Alert>, buckets: map<Severity, seq<nat>>, i: nat)
    requires forall s :: s in buckets && buckets[s] == Bucket(alerts, s, |alerts|)
    ensures i in ReportRows(buckets) <==> i < |alerts| && Relevant(Classify(alerts[i]).severity)
  {
    BucketMembership(alerts, Critical, |alerts|, i);
    BucketMembership(alerts, Severe, |alerts|, i);
    BucketMembership(alerts, Major, |alerts|, i);
  }

  /** The table prints "(No MAJOR+ events to report)" exactly when the assessment is routine. */
  lemma NoRowsIffRoutine(buckets: map<Severity, seq<nat>>)
    requires forall s :: s in buckets
    ensures ReportRows(buckets) == [] <==> Assess(|buckets[Critical]|, |buckets[Severe]|, |buckets[Major]|) == Routine
  {
  }
}
