/**
  * The weekly update: the success rule for each script run, the success and failure counts,
  * the lines of a script's output that the weekly review shows, and the week count handed to
  * the pattern analysis.
  */
module Weekly {
  import opened Wrappers
  import opened Text
  import opened Sorting
  import opened Pipeline

  datatype ScriptInfo = ScriptInfo(key: string, file: string, name: string, node: string, scripture: string)

  /** The scripts, in the order they run. */
  const Scripts: seq<ScriptInfo> := [
    ScriptInfo("earthquakes", "fetch_earthquakes.py", "USGS Earthquakes", "J0", "Matt 24:7-8"),
    ScriptInfo("gdacs", "fetch_gdacs.py", "GDACS Multi-Hazard", "J0", "Matt 24:7-8"),
    ScriptInfo("worldbank", "fetch_worldbank_news.py", "World Bank News", "J0/H0", "Matt 24:7-8 / Rev 17-18"),
    ScriptInfo("un_peacekeeping", "fetch_un_peacekeeping.py", "UN Peacekeeping", "J0", "Matt 24:6-7"),
    ScriptInfo("fred_news", "fetch_fred_news.py", "FRED Economic News", "H0", "Rev 17-18"),
    ScriptInfo("economic", "fetch_economic.py", "FRED Economic Data", "H0", "Rev 17-18"),
    ScriptInfo("spaceweather", "fetch_spaceweather.py", "NOAA Space Weather", "J6", "Matt 24:29 / Luke 21:25"),
    ScriptInfo("eff_news", "fetch_eff_news.py", "EFF Digital Rights", "B2", "Rev 13:16-17")]

  /** How a script run ended: it exited with a code, ran past the 30 s timeout, or raised. */
  datatype Outcome = Exited(code: int, stdout: string, stderr: string) | TimedOut | Raised(message: string)

  datatype ScriptResult = ScriptResult(success: bool, output: string, error: string, info: ScriptInfo)

  /** `run_script`: success exactly when the script exited with code 0. */
  function RunScript(info: ScriptInfo, outcome: Outcome): (r: ScriptResult)
    ensures r.success <==> outcome.Exited? && outcome.code == 0
    ensures !outcome.Exited? ==> r.output == []
    ensures outcome.TimedOut? ==> r.error == "Script timeout (30s)"
    ensures outcome.Raised? ==> r.error == outcome.message
    ensures r.info == info
  {
    match outcome
    case Exited(code, stdout, stderr) => ScriptResult(code == 0, stdout, stderr, info)
    case TimedOut => ScriptResult(false, "", "Script timeout (30s)", info)
    case Raised(message) => ScriptResult(false, "", message, info)
  }

  /** The loop of `main`: run every script in turn. */
  method RunAll(outcomes: seq<Outcome>) returns (results: seq<ScriptResult>)
    requires |outcomes| == |Scripts|
    ensures |results| == |Scripts|
    ensures forall i :: 0 <= i < |Scripts| ==> results[i] == RunScript(Scripts[i], outcomes[i])
  {
    results := [];
    for i := 0 to |Scripts|
      invariant |results| == i
      invariant forall j :: 0 <= j < i ==> results[j] == RunScript(Scripts[j], outcomes[j])
    {
      results := results + [RunScript(Scripts[i], outcomes[i])];
    }
  }

  // ---------------------------------------------------------------------------
  // Counts

  predicate Succeeded(r: ScriptResult) {
    r.success
  }

  predicate Failed(r: ScriptResult) {
    !r.success
  }

  datatype Counts = Counts(executed: nat, successful: nat, failed: nat)

  /** The summary: `successful` counts the successes and `failed` is the rest. */
  function Summary(results: seq<ScriptResult>): (c: Counts)
    ensures c.executed == |results| == c.successful + c.failed
    ensures c.successful == |Filter(results, Succeeded)| && c.failed == |Filter(results, Failed)|
    ensures c.failed == 0 <==> forall r :: r in results ==> r.success
  {
    var successful := |Filter(results, Succeeded)|;
    FilterComplement(results, Succeeded, Failed);
    assert Filter(results, Failed) != [] ==> exists r :: r in results && !r.success by {
      if Filter(results, Failed) != [] {
        var x := Filter(results, Failed)[0];
        assert x in Filter(results, Failed);
      }
    }
    Counts(|results|, successful, |results| - successful)
  }

  // ---------------------------------------------------------------------------
  // The review section of one script

  const MaxLines: nat := 50

  /** A line is shown when it is not blank and does not start with 'Fetching'. */
  predicate Shown(line: string) {
    Strip(line) != [] && !StartsWith(line, "Fetching")
  }

  /**
    * The output's shown lines in output order, repeats included: the k-th is the line at the k-th
    * shown position.
    */
  function ShownLines(output: string): (r: seq<string>)
    ensures var lines := Split(output, '\n');
      && |r| == |Positions(lines, Shown)|
      && forall k :: 0 <= k < |r| ==> r[k] == lines[Positions(lines, Shown)[k]] && Shown(r[k])
    ensures forall l :: l in Split(output, '\n') && Shown(l) ==> l in r
  {
    var lines := Split(output, '\n');
    assert forall l :: l in lines ==> exists i :: 0 <= i < |lines| && lines[i] == l;
    FilterAtPositions(lines, Shown);
    Filter(lines, Shown)
  }

  datatype Section =
    | SuccessSection(info: ScriptInfo, lines: seq<string>, more: Option<nat>)
    | FailureSection(info: ScriptInfo, error: string)

  /**
    * A script's section: on success the first 50 shown lines and, past 50, a note of how many
    * more there are; on failure its error text and none of its output.
    */
  function SectionFor(r: ScriptResult): (s: Section)
    ensures s.SuccessSection? <==> r.success
    ensures s.FailureSection? ==> s.error == r.error
    ensures s.SuccessSection? ==>
      var shown := ShownLines(r.output);
      && |s.lines| == (if |shown| < MaxLines then |shown| else MaxLines)
      && (forall i :: 0 <= i < |s.lines| ==> s.lines[i] == shown[i])
      && (s.more.Some? <==> |shown| > MaxLines)
      && (s.more.Some? ==> s.more.value == |shown| - MaxLines && |s.lines| + s.more.value == |shown|)
    ensures s.info == r.info
  {
    if r.success then
      var shown := ShownLines(r.output);
      SuccessSection(r.info, Take(shown, MaxLines), if |shown| > MaxLines then Some(|shown| - MaxLines) else None)
    else FailureSection(r.info, r.error)
  }

  /** A failed script shows none of its output, whatever that output was. */
  lemma FailureHidesOutput(r: ScriptResult, output: string)
    requires !r.success
    ensures SectionFor(r) == SectionFor(r.(output := output))
  {
  }

  /** The loop of `compile_weekly_review` over the results, one section per script in order. */
  method CompileSections(results: seq<ScriptResult>) returns (sections: seq<Section>)
    ensures |sections| == |results|
    ensures forall i :: 0 <= i < |results| ==> sections[i] == SectionFor(results[i])
  {
    sections := [];
    var i := 0;
    while i < |results|
      invariant i <= |results|
      invariant |sections| == i
      invariant forall j :: 0 <= j < i ==> sections[j] == SectionFor(results[j])
    {
      sections := sections + [SectionFor(results[i])];
      i := i + 1;
    }
  }

  predicate ShowsOutput(s: Section) {
    s.SuccessSection?
  }

  /** The review shows output for exactly as many scripts as the summary counts as successful. */
  lemma {:induction false} SectionsMatchCounts(results: seq<ScriptResult>, sections: seq<Section>)
    requires |sections| == |results|
    requires forall i :: 0 <= i < |results| ==> sections[i] == SectionFor(results[i])
    ensures |Filter(sections, ShowsOutput)| == Summary(results).successful
  {
    if results != [] {
      var n := |results| - 1;
      SectionsMatchCounts(results[..n], sections[..n]);
    }
  }

  // ---------------------------------------------------------------------------
  // Weeks

  /** `max(1, days // 7)`: whole weeks in the period, at least one. */
  function Weeks(days: int): (w: int)
    ensures w >= 1
    ensures days >= 7 ==> 7 * w <= days < 7 * (w + 1)
    ensures days < 14 ==> w == 1
  {
    if days / 7 > 1 then days / 7 else 1
  }
}
