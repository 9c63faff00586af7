# BibleStudy scoring, classification and ingestion — a Dafny model

This project models the decision and arithmetic layer of the BibleStudy monitoring scripts:

- the six per-node intensity scores, their fixed-weight sum and the four-phase banding, in the pattern analyzer and in its newsletter copy;
- the earthquake forecast: its moving-average fallback, its sliding windows, the clamp at 0, and the rows it appends to the trends table;
- the per-source classifiers:
  - the FRED economic-indicator thresholds and summary;
  - the NOAA space-weather severity cascade and flux extraction;
  - keyword classification of UN peacekeeping, World Bank, EFF and FRED news;
  - GDACS alert ranking, filtering and ordering;
  - USGS magnitude, location and region parsing, and the feed choice;
- the three `clean_html` variants;
- earthquake ingestion: reading the markdown rows back, and the INSERT OR IGNORE table keyed on the event id;
- the weekly update: the success rule for each script, the counts, and which output lines are shown.

Feed items are modelled as the fields already extracted from the XML. Publication dates are integers (seconds), with a parse that may fail. "Now" is a parameter. SQL query results are plain inputs, and each table is a `map` or a `seq` field of a class. Scores use exact `real` arithmetic.

Modules:

- `Wrappers`, `Text`, `Sorting`, `Pipeline`, `Ratings`: shared helpers.
  - `Text`: ASCII strings, substring search, split/strip, tag removal, replace, number parsing.
  - `Sorting`: a stable descending insertion sort.
  - `Pipeline`: the append-in-a-loop filter used by every feed parser.
- `FigTree` and `Newsletter`: scoring.
- `Forecast` and `Trends`: the forecast and the trends table.
- One module per feed script: `Economic`, `SpaceWeather`, `UnPeacekeeping`, `WorldBank`, `Eff`, `Fred`, `Gdacs`, `Earthquakes`.
- `Html`: the three `clean_html` variants.
- `Ingest` and `Weekly`.

`generate_newsletter.py` (line 372) and `weekly_update.py` (line 266) each compute the week count `max(1, days // 7)`; the model defines it once, as `Weekly.Weeks`, and the newsletter uses it.

Points where the code does something other than its own comments or a reader might expect; the model follows the code:

- `analyze_fig_tree_pattern.py` heads the wars score with the comment `# Intensity calculation (0-100)` (line 57), and the other nodes are capped at 100. The economic node's concern branch, `40 + concern * 10` (line 175), has no cap and reaches 110 with seven concern rows. `FigTree.EconomicConcernUncapped` proves this, and the bound on the overall score carries that exception (`FigTree.AnalyzeOverallBounded`).
- The newsletter recomputes the node scores with its own formulas. Its wars score is `min(active * 10, 100)` (generate_newsletter.py:76), against the analyzer's capped sum of active, casualty and death terms (analyze_fig_tree_pattern.py:59-63). Its quake score adds `major * 10` without the analyzer's caps of 70 and 30 (generate_newsletter.py:89 against analyze_fig_tree_pattern.py:98-101). `Newsletter.WarsFormulasDiffer` and `Newsletter.QuakeFormulasDiffer` exhibit inputs where they differ.
- With no famine reports the famine score is 30 (analyze_fig_tree_pattern.py:125); with one report it is `min(1 * 15, 100)` = 15 (line 130). So the score is not monotone in the report count (`FigTree.FaminesNotMonotone`).
- `calculate_year_over_year_change` is documented as "Calculate year-over-year percentage change" (fetch_economic.py:131), but it compares with `observations[-12]`, which is 11 periods back for a monthly series. The model keeps the code's index.

## Model

| member | source | states |
|---|---|---|
| FigTree.WarsIntensity | scripts/analyze_fig_tree_pattern.py:52-70 | no rows scores 0/Low; the score is in 0–100; High iff ≥70, Med iff in [40,70) |
| FigTree.WarsOuterCapIdle | scripts/analyze_fig_tree_pattern.py:59-63 | the three capped terms already sum to at most 100, so the outer cap never changes the score |
| FigTree.WarsMonotone | scripts/analyze_fig_tree_pattern.py:59-63 | more active conflicts, casualty reports or deaths never lower the wars score |
| FigTree.QuakesIntensity | scripts/analyze_fig_tree_pattern.py:87-108 | no rows scores 0; the score is in 0–100; confidence is never High, and Med iff ≥50 |
| FigTree.FaminesIntensity | scripts/analyze_fig_tree_pattern.py:124-137 | no reports scores 30/Low; the score is in 0–100; never High; Med iff there are reports and the score is ≥60 |
| FigTree.FaminesNotMonotone | scripts/analyze_fig_tree_pattern.py:124-130 | one report scores below the no-report floor |
| FigTree.FaminesMonotoneFromOne | scripts/analyze_fig_tree_pattern.py:130 | from one report on, more reports never lower the score |
| FigTree.CosmicIntensity | scripts/analyze_fig_tree_pattern.py:140-145 | always 5/Low, whatever the window |
| FigTree.DigitalIntensity | scripts/analyze_fig_tree_pattern.py:181-186 | always 25/Low, whatever the window |
| FigTree.EconomicIntensity | scripts/analyze_fig_tree_pattern.py:164-178 | no rows scores 20/Low; High iff there is a crisis row (score 80–100); Med iff no crisis and some concern (score ≥50); never below 20 |
| FigTree.EconomicConcernUncapped | scripts/analyze_fig_tree_pattern.py:174-176 | seven or more concern rows with no crisis score above 100 |
| FigTree.EconomicBounded | scripts/analyze_fig_tree_pattern.py:164-178 | outside that case the economic score is at most 100 |
| FigTree.WeightsAreConvex | scripts/analyze_fig_tree_pattern.py:192-199 | six distinct nodes, non-negative weights, summing to exactly 1 |
| FigTree.WeightedSumBounds | scripts/analyze_fig_tree_pattern.py:202-204 | with node scores in 0–100 the weighted sum lies between 0 and 100 × the total weight |
| FigTree.WeightedSumMonotone | scripts/analyze_fig_tree_pattern.py:202-204 | raising node scores never lowers a non-negative weighted sum |
| FigTree.OverallBounded | scripts/analyze_fig_tree_pattern.py:192-204 | with every node in 0–100 the overall score is in 0–100 |
| FigTree.OverallMonotone | scripts/analyze_fig_tree_pattern.py:192-204 | raising any node score never lowers the overall score |
| FigTree.PhaseOf | scripts/analyze_fig_tree_pattern.py:207-222 | Advanced iff ≥70, Active iff in [50,70), Early iff in [30,50), Monitoring iff <30 |
| FigTree.PhaseMonotone | scripts/analyze_fig_tree_pattern.py:207-222 | a higher score never gives a lower phase |
| FigTree.OverallPatternStrength | scripts/analyze_fig_tree_pattern.py:189-229 | the loop's total is the weighted sum over the weights, and the phase is its band |
| FigTree.Analyze | scripts/analyze_fig_tree_pattern.py:37-186 | all six node scores are in 0–100, except on the uncapped economic concern branch |
| FigTree.AnalyzeOverallBounded | scripts/analyze_fig_tree_pattern.py:189-204 | the analyzer's overall score is in 0–100 unless the economic concern branch overflows |
| Newsletter.NlWars | scripts/generate_newsletter.py:76 | 0 with no rows; in 0–100; 100 from ten active conflicts on |
| Newsletter.NlQuakes | scripts/generate_newsletter.py:86-91 | 0 with no rows; in 0–100 |
| Newsletter.NlFamines | scripts/generate_newsletter.py:99 | 30 with no reports, and otherwise equal to the analyzer's famine score |
| Newsletter.NlEconomic | scripts/generate_newsletter.py:111-112 | 70 iff some crisis row, 20 iff none |
| Newsletter.NlOverallMatchesAnalyzer | scripts/generate_newsletter.py:118-127 | the newsletter's weighted sum is the analyzer's, with the same weights on the same nodes |
| Newsletter.NlOverallBounded | scripts/generate_newsletter.py:76-127 | the newsletter's overall score is in 0–100 |
| Newsletter.AnalyzerQuakesAtMostNewsletter | scripts/generate_newsletter.py:86-91 | the analyzer never scores earthquakes above the newsletter on the same row |
| Newsletter.QuakeFormulasDiffer | scripts/generate_newsletter.py:89 | four quakes in one week, all major: the newsletter scores 10 points higher |
| Newsletter.WarsFormulasDiffer | scripts/generate_newsletter.py:76 | eight active conflicts: analyzer 60, newsletter 80 |
| Newsletter.SeasonOf | scripts/generate_newsletter.py:129-145 | late spring iff Advanced, winter iff Monitoring |
| Newsletter.SeasonBands | scripts/generate_newsletter.py:129-145 | each season is exactly the band ≥70, [50,70), [30,50) or <30 |
| Newsletter.ChooseHeadline | scripts/generate_newsletter.py:389-400 | a non-empty AI headline wins; else markers elevated iff ≥70, patterns iff in [50,70), the quake count iff <50 with ≥50 quakes |
| Newsletter.QuakeSectionConfidence | scripts/generate_newsletter.py:493 | High iff ≥2 major quakes; Med iff fewer and ≥50 quakes; else Low |
| Newsletter.WeekOverWeek | scripts/generate_newsletter.py:437-449 | a line iff last week's count > 0; up, down or flat iff the count rose, fell or stayed; a change shown iff non-zero, equal to the difference |
| Newsletter.CrisisCount | scripts/generate_newsletter.py:213 | at most the number of rows |
| Newsletter.HasCrisisIff | scripts/generate_newsletter.py:213-218 | the crisis count is positive iff some row has status 'Crisis' |
| Forecast.PrefixSumDifference | scripts/predict_trends.py:104-105 | a difference of cumulative sums is the sum of the slice between them |
| Forecast.MovingAverage | scripts/predict_trends.py:99-105 | input unchanged when shorter than the window; otherwise len − window + 1 values, value i the mean of data[i..i+window) |
| Forecast.ConstantMovingAverage | scripts/predict_trends.py:99-105 | a constant history has a constant moving average |
| Forecast.FallbackValue | scripts/predict_trends.py:112-113 | the mean of the last three points with ≥3 points, else the last point |
| Forecast.Fallback | scripts/predict_trends.py:110-116 | exactly `steps` copies of the fallback value |
| Forecast.FallbackOfConstant | scripts/predict_trends.py:110-116 | a flat history forecasts itself |
| Forecast.FallbackExample | scripts/predict_trends.py:110-116 | [10,10,10,10] over 3 steps forecasts [10,10,10] |
| Forecast.EffectiveStd | scripts/predict_trends.py:121 | the deviation used is always positive, and a positive one is kept as it is |
| Forecast.Normalize | scripts/predict_trends.py:122 | one value per point, value i times the deviation being point i minus the mean, i.e. (x − mean)/std |
| Forecast.Denormalize | scripts/predict_trends.py:166-167 | one value per prediction: prediction·std + mean or 0, and at least both, i.e. max(0, prediction·std + mean) |
| Forecast.DenormalizeNormalize | scripts/predict_trends.py:120-167 | denormalising normalised non-negative data gives it back |
| Forecast.BuildWindows | scripts/predict_trends.py:125-130 | len − L windows; window i is norm[i..i+L) with target norm[i+L] |
| Forecast.PredictWithMl | scripts/predict_trends.py:108-171 | `steps` predictions; simple-MA iff no network or < 8 points, then the fallback; otherwise the denormalised, clamped network output; never the insufficient-data tag; the result is `Predictions` of its inputs |
| Forecast.PredictionsNonNegative | scripts/predict_trends.py:108-171 | with non-negative weekly counts every forecast, fallback or network, is non-negative |
| Forecast.EnoughWindows | scripts/predict_trends.py:125-138 | with ≥8 points the window length is 4 and there are ≥4 windows |
| Forecast.ForecastRow | scripts/predict_trends.py:261-277 | metric 'predicted_earthquakes_week_' + str(n); starts on a Monday, ends 6 days later, covers today + 7n; period 'week', no comparison, the predicted value |
| Forecast.ForecastRowsDistinct | scripts/predict_trends.py:261-271 | different steps get different metric names and start 7 days apart per step |
| Forecast.ForecastRows | scripts/predict_trends.py:261-277 | one row per prediction, row i the row of step i + 1 with prediction i |
| Forecast.AnalyzeTrends | scripts/predict_trends.py:174-279 | too few weeks or no series: the ledger is unchanged; otherwise the rows of `predict_with_ml`'s forecasts, one per step, are appended after the untouched earlier rows |
| Trends.TrendLedger.Insert | scripts/predict_trends.py:267-277 | a plain INSERT: the row goes after all earlier rows, which stay as they were |
| Economic.ThresholdsOrdered | scripts/fetch_economic.py:47-98 | every critical threshold lies strictly beyond its high threshold in the harmful direction |
| Economic.ConfiguredKinds | scripts/fetch_economic.py:47-247 | each configured series id selects the rule of its own category |
| Economic.ValidObservations | scripts/fetch_economic.py:157 | the observations carrying a value, in input order and with repeats: the k-th is the one at the k-th position holding a value |
| Economic.Values | scripts/fetch_economic.py:172 | the values in order |
| Economic.YearOverYear | scripts/fetch_economic.py:130-140 | None iff fewer than 12 values; otherwise the change satisfies yoy·base = (last − base)·100 with base = values[-12] |
| Economic.YearOverYearSign | scripts/fetch_economic.py:136-138 | with a positive base the change is positive iff the latest value is higher |
| Economic.ConfidenceFor | scripts/fetch_economic.py:146-249 | High iff CRISIS, Med iff CONCERN, N/A iff ERROR |
| Economic.Severity | scripts/fetch_economic.py:177-244 | CRISIS iff the reading reaches the critical threshold; CONCERN iff it reaches the high one but not the critical one; NORMAL iff it reaches neither |
| Economic.SeverityMonotone | scripts/fetch_economic.py:177-244 | a worse reading never gets a less severe status |
| Economic.SeverityBandsNonEmpty | scripts/fetch_economic.py:177-244 | the high threshold itself is CONCERN and the critical one CRISIS |
| Economic.Assess | scripts/fetch_economic.py:143-261 | confidence follows status; ERROR iff no data or no valid observation; otherwise the rule of the series' kind on the latest value or YoY, UNKNOWN without YoY |
| Economic.CountAppend | scripts/fetch_economic.py:276-292 | counts over concatenated lists add up |
| Economic.SummaryLevel | scripts/fetch_economic.py:301-310 | High iff ≥2 crises; Med iff fewer and (≥3 concerns or a crisis); Low iff no crisis and <3 concerns |
| Economic.DailyReviewCounts | scripts/fetch_economic.py:264-310 | the loop counts the CRISIS and CONCERN rows of all categories and reports their summary level |
| Economic.ReportedRows | scripts/fetch_economic.py:354-360 | exactly the CRISIS and CONCERN rows, as many as the two counts |
| Economic.ClassificationRows | scripts/fetch_economic.py:354-360 | the loop emits the reported rows of all categories in order |
| SpaceWeather.ConfidenceOf | scripts/fetch_spaceweather.py:84-134 | High iff CRITICAL/SEVERE, Med iff MAJOR/MODERATE, Low iff MINOR/INFO |
| SpaceWeather.ExtractFlux | scripts/fetch_spaceweather.py:137-146 | None when the marker is absent; otherwise `int()` of the text between the marker and 'PFU' (cut at a second marker), None when that text is not an integer |
| SpaceWeather.ExtractFluxNeedsDigit | scripts/fetch_spaceweather.py:140-145 | a reading is found only when a digit follows the marker; otherwise the ValueError path gives None |
| SpaceWeather.ExtractFluxReading | scripts/fetch_spaceweather.py:140-143 | a reading written as 'MAXIMUM 2MEV FLUX: n PFU' is read back as n |
| SpaceWeather.ElectronSeverity | scripts/fetch_spaceweather.py:112-119 | SEVERE iff > 10000, MODERATE iff in (5000, 10000], MINOR iff missing or ≤ 5000 |
| SpaceWeather.Classify | scripts/fetch_spaceweather.py:78-134 | confidence follows severity; the severity is the cascade on the upper-cased message |
| SpaceWeather.ClassifyIgnoresCase | scripts/fetch_spaceweather.py:80 | messages equal up to case classify alike |
| SpaceWeather.GScaleWins | scripts/fetch_spaceweather.py:84-94 | a G-scale match decides the severity whatever follows |
| SpaceWeather.MinorStormBeforeRadiation | scripts/fetch_spaceweather.py:84-100 | 'g1 s5' is MINOR |
| SpaceWeather.KIndexFallsThrough | scripts/fetch_spaceweather.py:122-134 | a K-index message with no level 4–9 phrase (and no earlier match) is INFO/Low |
| SpaceWeather.Relevant | scripts/fetch_spaceweather.py:149-156 | relevant iff CRITICAL, SEVERE or MAJOR |
| SpaceWeather.BucketMembership | scripts/fetch_spaceweather.py:189-196 | an alert is in the bucket of its own severity and in no other |
| SpaceWeather.BucketsPartition | scripts/fetch_spaceweather.py:181-196 | the six buckets together hold every alert exactly once |
| SpaceWeather.BucketBySeverity | scripts/fetch_spaceweather.py:181-196 | the loop fills every severity's bucket with its alerts in arrival order |
| SpaceWeather.Assess | scripts/fetch_spaceweather.py:221-247 | critical iff any CRITICAL, else severe iff any SEVERE, else major iff any MAJOR, else routine, with a positive count |
| SpaceWeather.ReportRowsRelevant | scripts/fetch_spaceweather.py:198-217 | the reported rows are exactly the relevant alerts |
| SpaceWeather.NoRowsIffRoutine | scripts/fetch_spaceweather.py:198-247 | no rows iff the assessment is routine |
| Html.CleanUn | scripts/fetch_un_peacekeeping.py:56-68 | None cleans to ""; the result is trimmed, its only whitespace is single blanks |
| Html.CleanWorldBank | scripts/fetch_worldbank_news.py:73-85 | None cleans to ""; the result is trimmed, its only whitespace is single blanks |
| Html.CleanFred | scripts/fetch_fred_news.py:51-55 | trimmed, single blanks, no entity decoding |
| Html.CleanKeepsPlain | scripts/fetch_un_peacekeeping.py:56-68 | all three cleaners leave plain text (trimmed, single-blanked, no '<' or '&') unchanged |
| Html.DoubleDecoding | scripts/fetch_un_peacekeeping.py:63-65 | '&amp;lt;' cleans to '<' |
| Html.SplitTagSurvives | scripts/fetch_fred_news.py:53-54 | a tag broken by a newline survives tag removal and comes out as '<a b>' |
| Html.CleanFredNotIdempotent | scripts/fetch_fred_news.py:53-54 | cleaning that output again removes it: cleaning is not idempotent |
| Text.RemoveTagsTagFree | scripts/fetch_un_peacekeeping.py:61 | after tag removal no '<' has a '>' after it on its line |
| Text.CollapseSpaces | scripts/fetch_un_peacekeeping.py:67 | no two neighbouring whitespace characters, only blanks, empty iff the input is |
| Text.Truncate | scripts/fetch_un_peacekeeping.py:191 | at most n + 3 characters; the input when short, else its first n characters and '...' |
| UnPeacekeeping.Matches | scripts/fetch_un_peacekeeping.py:94-96 | exactly the keywords of the list that occur in the text |
| UnPeacekeeping.MatchesIsFilter | scripts/fetch_un_peacekeeping.py:94-96 | the keyword comprehension is the filter of the keyword list by occurrence in the text |
| UnPeacekeeping.MatchesInListOrder | scripts/fetch_un_peacekeeping.py:94-96 | the k-th match is the keyword at the k-th occurring position of the list, so the list's order is kept |
| UnPeacekeeping.DigitRunsEmpty | scripts/fetch_un_peacekeeping.py:75-84 | there are digit runs iff the text has a digit |
| UnPeacekeeping.ExtractNumbers | scripts/fetch_un_peacekeeping.py:71-86 | at most 5 numbers; none iff the text has no digit (digit runs only; see Left out) |
| UnPeacekeeping.ClassifyArticle | scripts/fetch_un_peacekeeping.py:89-133 | at most 3 keywords; no numbers iff no digit |
| UnPeacekeeping.ClassifyRelevance | scripts/fetch_un_peacekeeping.py:94-125 | relevant iff some list matched; category 'Peacekeeping' iff irrelevant, and then Low |
| UnPeacekeeping.CasualtiesDominate | scripts/fetch_un_peacekeeping.py:102-115 | a casualty keyword forces 'Casualties', and with a digit High |
| UnPeacekeeping.KeywordsInListOrder | scripts/fetch_un_peacekeeping.py:128 | the keywords are exactly the first min(3, n) of the n war, then casualty, then humanitarian matches |
| UnPeacekeeping.PeacekeepingIsAWarKeyword | scripts/fetch_un_peacekeeping.py:29-125 | an article mentioning peacekeeping is relevant and never in the 'Peacekeeping' category |
| UnPeacekeeping.Candidate | scripts/fetch_un_peacekeeping.py:158-200 | kept iff title, link and a date element, the parsed date (or now) in the window, and the cleaned title and description classify as relevant; then its title, keywords, confidence and category are the classification's, its description at most 203 characters; the description is the cleaned description cut at 200 characters with '...' |
| UnPeacekeeping.ParseNews | scripts/fetch_un_peacekeeping.py:152-204 | the kept articles, sorted newest first |
| UnPeacekeeping.ParseNewsResult | scripts/fetch_un_peacekeeping.py:152-204 | sorted newest first, a permutation of the kept articles, ties in feed order, each relevant and in the window |
| UnPeacekeeping.TableRows | scripts/fetch_un_peacekeeping.py:251 | exactly the first min(10, n) articles |
| UnPeacekeeping.TableHoldsNewest | scripts/fetch_un_peacekeeping.py:251 | on the sorted list no article left out is newer than one listed |
| WorldBank.NodesFor | scripts/fetch_worldbank_news.py:92-112 | J0 iff poverty or disaster matched, H0 iff economic matched, no duplicates, J0 before H0 |
| WorldBank.KeywordsFound | scripts/fetch_worldbank_news.py:93-127 | `list(set(keywords_found))[:3]`: exactly min(3, number of distinct found keywords), distinct, each among the first two matches of its list and present in the text; none iff no keyword of the three lists occurs |
| WorldBank.FoundNonEmpty | scripts/fetch_worldbank_news.py:93-111 | something is found iff a poverty, disaster or economic keyword occurs |
| WorldBank.ClassifyArticle | scripts/fetch_worldbank_news.py:88-129 | at most 3 distinct matched keywords; relevant iff some node, iff some keyword is reported |
| WorldBank.ClassifyNodes | scripts/fetch_worldbank_news.py:92-122 | which keyword lists give which node; irrelevant articles are Low |
| WorldBank.DestroyedIsHigh | scripts/fetch_worldbank_news.py:50-116 | an article containing 'destroyed' is High |
| WorldBank.Candidate | scripts/fetch_worldbank_news.py:138-180 | kept iff title, link, a parsed in-window date and the cleaned title and description classify as relevant; then its title, nodes, keywords and confidence are the classification's, with a node and a description of at most 153 characters; the description is the cleaned description cut at 150 characters with '...' |
| WorldBank.ParseNews | scripts/fetch_worldbank_news.py:132-184 | the kept articles, sorted newest first |
| WorldBank.ParseNewsResult | scripts/fetch_worldbank_news.py:132-184 | sorted newest first, a permutation of the kept articles, ties in feed order, each with a node |
| WorldBank.TableRow | scripts/fetch_worldbank_news.py:235-240 | 'Matt 24:7-8' and 'Disaster/Famine' iff J0 is a node, else 'Rev 17-18' and 'Economic' |
| WorldBank.TableRows | scripts/fetch_worldbank_news.py:235 | exactly min(10, n) rows, row i the row of article i |
| Eff.Candidate | scripts/fetch_eff_news.py:60-89 | kept iff the date is absent or parses and is in the window, and some B2 keyword occurs; its keywords are then the B2 keywords occurring in the lower-cased title and description, in list order; the description is the raw description cut at 200 characters with '...' |
| Eff.ParseRss | scripts/fetch_eff_news.py:50-91 | the kept articles in feed order, each with keywords and no unparseable date |
| Eff.CategoriesFor | scripts/fetch_eff_news.py:113-121 | each category iff its indicator matched, in fixed order; 'Surveillance/Privacy' alone iff none did |
| Eff.ClassifyArticle | scripts/fetch_eff_news.py:98-133 | Med iff a topical indicator and a mandate indicator; otherwise Low; never High |
| Eff.KeywordsIgnored | scripts/fetch_eff_news.py:98-100 | the result does not depend on the keywords argument |
| Eff.TableIsMed | scripts/fetch_eff_news.py:204-214 | the table's Med/High filter keeps exactly the Med articles |
| Fred.IsRelevant | scripts/fetch_fred_news.py:58-61 | relevant iff some keyword occurs in the lower-cased title + ' ' + description |
| Fred.Candidate | scripts/fetch_fred_news.py:70-110 | kept iff title, link and a parsed in-window date; description ≤ 203 characters; relevance of the untruncated description; the description is the cleaned description cut at 200 characters with '...' |
| Fred.ParseAnnouncements | scripts/fetch_fred_news.py:64-114 | the kept announcements, sorted newest first |
| Fred.ParseKeepsAll | scripts/fetch_fred_news.py:70-114 | every in-window item with a title and link is in the sorted result, relevant or not |
| Fred.FormatReview | scripts/fetch_fred_news.py:117-150 | the fixed message iff empty; every relevant announcement in list order; the first min(5, n) of the n others in list order, and n; relevant + others = total; a "more" row iff > 5 others, counting the rest |
| Gdacs.AlertRank | scripts/fetch_gdacs.py:46-50 | Red 3, Orange 2, Green 1, anything else the default |
| Gdacs.DisasterType | scripts/fetch_gdacs.py:37-102 | a known type iff one of the five codes |
| Gdacs.PopulationText | scripts/fetch_gdacs.py:119-140 | 'Unknown' iff the value is '0', else "text (value people)" |
| Gdacs.Candidate | scripts/fetch_gdacs.py:70-145 | kept iff title, link, a parsed in-window date and a rank (unknown = 1) at least the minimum; a missing level is Green |
| Gdacs.MoreSevereOrLaterTotal | scripts/fetch_gdacs.py:148 | the (rank, date) order is total and transitive |
| Gdacs.ParseDisasters | scripts/fetch_gdacs.py:63-149 | the kept alerts, sorted by (rank, date) descending |
| Gdacs.ParseDisastersResult | scripts/fetch_gdacs.py:63-149 | sorted, a permutation of the kept alerts, ties in feed order, each at least the minimum rank |
| Gdacs.GroupByType | scripts/fetch_gdacs.py:157-163 | a group per type present, each the alerts of that type in list order |
| Gdacs.LevelCounts | scripts/fetch_gdacs.py:181-185 | red + orange + green ≤ total, with equality when every level is known |
| Gdacs.TableRow | scripts/fetch_gdacs.py:204-206 | High iff Red or Orange, else Med; region is the country |
| Gdacs.TableRows | scripts/fetch_gdacs.py:199 | exactly min(10, n) rows, row i the row of alert i |
| Earthquakes.ParseMagnitude | scripts/fetch_earthquakes.py:49-54 | 0.0 when the title has no 'M ' |
| Earthquakes.TitleMagnitude | scripts/fetch_earthquakes.py:49-54 | 'M w.f - place' gives w.f whatever the place says |
| Earthquakes.Location | scripts/fetch_earthquakes.py:91 | 'Unknown' without ' - '; otherwise the text after the first ' - ' |
| Earthquakes.Candidate | scripts/fetch_earthquakes.py:63-104 | kept iff a title, a parsed date in the window and magnitude ≥ the minimum |
| Earthquakes.ParseEarthquakes | scripts/fetch_earthquakes.py:57-110 | the kept earthquakes, sorted by magnitude descending |
| Earthquakes.ParseEarthquakesResult | scripts/fetch_earthquakes.py:57-110 | largest first, a permutation of the kept ones, ties in feed order, each above the minimum and in the window |
| Earthquakes.FormatRow | scripts/fetch_earthquakes.py:123-126 | the daily-review row: its length is the cells' plus 30; it opens with a bar, the magnitude in bold and a bar, then the location, and closes with the url, a parenthesis and a bar |
| Earthquakes.Region | scripts/fetch_earthquakes.py:148 | the location without a comma; else the stripped text after its last comma |
| Earthquakes.TableRows | scripts/fetch_earthquakes.py:142-150 | exactly min(5, n) rows, row i the magnitude, location and region of earthquake i |
| Earthquakes.TableHoldsLargest | scripts/fetch_earthquakes.py:109-142 | on the sorted list each table row is at least as large as any left out |
| Earthquakes.ChooseFeed | scripts/fetch_earthquakes.py:178-183 | never the hour feed; day iff days ≤ 1, week iff in (1, 7] |
| Earthquakes.ChosenFeedCovers | scripts/fetch_earthquakes.py:178-183 | the chosen feed covers up to 30 days and is the shortest feed that does |
| Earthquakes.Summary | scripts/fetch_earthquakes.py:197-206 | no summary iff no earthquakes |
| Earthquakes.SummaryOfLargest | scripts/fetch_earthquakes.py:197-206 | on the sorted list High iff some quake ≥ 6, Medium iff the largest is in [5, 6) |
| Ingest.Cell | scripts/ingest_data.py:52 | a cell is non-empty, holds no bar, and the text is that cell, a bar and the rest |
| Ingest.Link | scripts/ingest_data.py:52 | the url is non-empty and holds no ')' |
| Ingest.MatchRow | scripts/ingest_data.py:52 | the pattern matches a row of a magnitude, three cells and a link |
| Ingest.RowRoundTrip | scripts/ingest_data.py:50-61 | parsing a formatted row gives back the magnitude, the stripped location, date and url, and the id after the url's last '/' |
| Ingest.EmptyLinkIgnored | scripts/ingest_data.py:52 | a row with an empty link is not read |
| Ingest.ParseOutput | scripts/ingest_data.py:45-63 | the records of the matching lines, in order; each comes from a line of the output |
| Ingest.MatchingLinesRead | scripts/ingest_data.py:50-61 | every matching line gives its record |
| Ingest.IngestedGrows | scripts/ingest_data.py:75-91 | existing rows are never overwritten; the table grows by at most the batch; each new row is a batch record |
| Ingest.IngestedKeys | scripts/ingest_data.py:75-89 | without failures the table gains exactly the batch's event ids |
| Ingest.IngestTwice | scripts/ingest_data.py:75-89 | ingesting the same batch again changes nothing |
| Ingest.FailuresSkipped | scripts/ingest_data.py:90-91 | a failing insert is skipped and the rest of the batch proceeds as if it were absent |
| Ingest.EarthquakeStore.InsertOrIgnore | scripts/ingest_data.py:77-89 | inserted iff the event id is new; only then is the row added |
| Ingest.EarthquakeStore.Ingest | scripts/ingest_data.py:66-94 | the table after the batch; it grew by exactly `inserted`, at most the batch size |
| Ingest.MajorRateBounded | scripts/ingest_data.py:117-142 | the major-earthquake rate is between 0 and the overall rate |
| Ingest.CalculateTrends | scripts/ingest_data.py:112-145 | two rows appended, value count/8 over today−56..today; earlier rows unchanged |
| Weekly.RunScript | scripts/weekly_update.py:82-123 | success iff exit code 0; a timeout or exception gives no output, with the timeout message or the exception text as error |
| Weekly.RunAll | scripts/weekly_update.py:224-227 | one result per script, in the scripts' order |
| Weekly.Summary | scripts/weekly_update.py:136-142 | successful + failed = executed; successful counts the successes, failed the failures; no failures iff all succeeded |
| Weekly.ShownLines | scripts/weekly_update.py:158-159 | the output lines that are not blank and do not start with 'Fetching', in output order and with repeats: the k-th is the line at the k-th shown position |
| Weekly.SectionFor | scripts/weekly_update.py:149-166 | a success shows the first 50 shown lines and a "more" note iff > 50, counting the rest; a failure shows its error |
| Weekly.FailureHidesOutput | scripts/weekly_update.py:164-166 | a failed script's section does not depend on its output |
| Weekly.CompileSections | scripts/weekly_update.py:149-166 | one section per result, in order |
| Weekly.SectionsMatchCounts | scripts/weekly_update.py:138-166 | the sections showing output are as many as the successful count |
| Weekly.Weeks | scripts/weekly_update.py:266 | weeks ≥ 1; 7·weeks ≤ days < 7·(weeks+1) for days ≥ 7; 1 for days < 14 |
| Sorting.SortDescSorted | scripts/fetch_earthquakes.py:109 | the sorted list is in descending order for a total preorder |
| Sorting.SortDescStable | scripts/fetch_earthquakes.py:109 | equal-keyed elements keep their relative order, as in Python's stable sort |
| Pipeline.Positions | scripts/weekly_update.py:159 | the positions whose element passes the test: increasing, each passing, and every passing position present |
| Pipeline.FilterAtPositions | scripts/weekly_update.py:159 | a list comprehension's k-th element is the element at the k-th passing position, so order and repeats are kept |
| Pipeline.FilterCount | scripts/fetch_economic.py:157 | a passing value occurs in the filter as often as in the list, a failing one not at all |
| Pipeline.DistinctCard | scripts/fetch_worldbank_news.py:127 | a list without repeats has as many elements as its set |
| Pipeline.DedupCard | scripts/fetch_worldbank_news.py:127 | de-duplicating keeps one copy of each element, so its length is the size of `set(...)` |
| Pipeline.FilterComplement | scripts/fetch_fred_news.py:122-123 | a filter and its complement together have the list's length |
| Text.JoinSplit | scripts/weekly_update.py:158 | splitting on a character and joining with it gives the text back |
| Text.ParseIntDecimal | scripts/fetch_spaceweather.py:143 | `int(str(n)) == n` |
| Text.ParseDecimalPlain | scripts/ingest_data.py:56 | `float` of digits, a point and digits is their decimal value |

## Left out

- Network fetches, OpenAI calls, subprocess execution, file writes and printing are not modelled. Their results are inputs: feed items, the outcome of a script run, SQL aggregate rows.
- XML and ATOM traversal is not modelled. Each item is the record of fields it yields. Where the scripts would fail on an element with no text (EFF, FRED, GDACS, USGS titles; a World Bank or FRED `pubDate` element with no text, whose `None` makes `strptime` raise a `TypeError` that `except ValueError` does not catch; an EFF `<description>` with no text, whose `None` makes `title + ' ' + description` raise a `TypeError` (fetch_eff_news.py:65,79); a USGS `<updated>` with no text, where `None[:19]` raises a `TypeError` that `except ValueError` does not catch (fetch_earthquakes.py:82)), that text is taken as present.
- `strptime` and `strftime` are not modelled. A date is Missing, Parsed (seconds) or Unparseable. Display strings such as the GDACS event date, or the date column of an earthquake row, are inputs. For UN items an unparseable date falls back to "now", as the code does.
- SQLite is not modelled. Tables are a `map` (earthquakes, keyed on event_id) or a `seq` (trends). The DDL and the date arithmetic of the queries are left out. `calculate_trends` takes its cutoff as a date string.
- TensorFlow training and inference are not modelled. `Forecast.PredictWithMl` takes the network's raw outputs as an input. numpy's mean is exact; its standard deviation is an input.
- IEEE-754 rounding is not modelled; all arithmetic is exact `real`.
- Python `set` orderings are not modelled. The World Bank keyword list keeps first occurrences; only bounds, distinctness and membership are claimed for it.
- UnPeacekeeping.ExtractNumbers: the model takes the first three maximal digit runs. It does not model the comma groups of `\d+(?:,\d{3})*` (so '1,140' is two runs here, one match there), the million/percent patterns, or the `list(set(...))` de-duplication, and it claims no distinctness. It claims only the at-most-5 bound and that the list is empty iff the text has no digit, which hold for the code as written because the comma-group pattern matches wherever a digit is.
- `\s`, `\d`, `lower()` and `upper()` are approximated by their ASCII parts.
- `float()` and `int()` are modelled on ASCII digits with an optional sign and one point. Exponents, 'inf'/'nan' and underscores are not.
- Earthquakes.ParseMagnitude: its contract states only the no-marker case. The positive case is `Earthquakes.TitleMagnitude`, for titles in the USGS form.
- The Python sorts work in place on lists. Here they are a stable insertion sort on `seq` values, so in-place update and aliasing are not captured.
- Ingest.FailuresSkipped: which inserts fail is an input set of positions, since the SQLite error cannot be seen.
- The broken, commented-out `ingest_economic_data` is not modelled.
- The free-text markdown of each report is not modelled. Only the row formats and counts above are.
- The newsletter's TL;DR assembly is not modelled, nor the daily-review grouping of UN and World Bank articles by category.
- The space-weather description strings are not modelled; only severities and confidences are.
- The FRED API key check at import time and `sys.exit` are not modelled.
