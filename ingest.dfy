/**
  * Earthquake ingestion: the markdown-row reader applied to the earthquake report, the
  * insert-or-ignore store keyed on the event id, and the append-only trend rows.
  */
module Ingest {
  import opened Wrappers
  import opened Text
  import opened Pipeline
  import opened Trends
  import Earthquakes

  // ---------------------------------------------------------------------------
  // The row pattern
  //
  // The pattern searched for in each line is, piece by piece:
  //   '|', blanks, '**', a magnitude (digits, an optional '.', digits), '**', blanks, '|',
  //   three non-empty cells each ended by '|', blanks, '[USGS](', a non-empty url without ')', ')'.
  // A cell's leading blanks are part of what is stripped afterwards, so each cell is simply the
  // text up to the next '|'.

  datatype Record = Record(magnitude: real, location: string, date: string, url: string, eventId: string)

  predicate MagnitudeChar(c: char) {
    IsDigit(c) || c == '.'
  }

  /** The length of the longest prefix of digits and dots. */
  function MagnitudeRun(s: string): (n: nat)
    ensures n <= |s|
    ensures forall i :: 0 <= i < n ==> MagnitudeChar(s[i])
    ensures n < |s| ==> !MagnitudeChar(s[n])
  {
    if s != [] && MagnitudeChar(s[0]) then 1 + MagnitudeRun(s[1..]) else 0
  }

  /** `\d+\.?\d*` on a run of digits and dots. */
  predicate ValidMagnitude(m: string) {
    |Before(m, ".")| > 0 && AllDigits(Before(m, ".")) && AllDigits(After(m, "."))
  }

  /** The rest of `t` after the literal `p`. */
  function Lit(t: string, p: string): (r: Option<string>)
    ensures r.Some? ==> t == p + r.value
  {
    if StartsWith(t, p) then
      assert t == t[..|p|] + t[|p|..];
      Some(t[|p|..])
    else None
  }

  /** `|\s*\*\*`: what follows the opening stars. */
  function Opening(t: string): Option<string> {
    match Lit(t, "|")
    case None => None
    case Some(t1) => Lit(StripLeft(t1), "**")
  }

  /** `\*\*\s*\|`: what follows the bar after the closing stars. */
  function Closing(t: string): Option<string> {
    match Lit(t, "**")
    case None => None
    case Some(t1) => Lit(StripLeft(t1), "|")
  }

  /** `|\s*\*\*(magnitude)\*\*\s*\|`: the magnitude text and what follows the bar. */
  function Head(t: string): Option<(string, string)> {
    match Opening(t)
    case None => None
    case Some(t1) =>
      var n := MagnitudeRun(t1);
      if !ValidMagnitude(t1[..n]) then None
      else
        match Closing(t1[n..])
        case None => None
        case Some(t2) => Some((t1[..n], t2))
  }

  /** `\s*([^|]+)\|`: a non-empty cell and what follows its closing bar. */
  function Cell(t: string): (r: Option<(string, string)>)
    ensures r.Some? ==> |r.value.0| > 0 && '|' !in r.value.0 && t == r.value.0 + "|" + r.value.1
  {
    match IndexOf(t, "|")
    case Some(k) =>
      FirstChar(t, '|', k);
      if k == 0 then None else Some((t[..k], t[k + 1..]))
    case None => None
  }

  /** `\s*\[USGS\]\(([^)]+)\)`: the url of the link. */
  function Link(t: string): (r: Option<string>)
    ensures r.Some? ==> |r.value| > 0 && ')' !in r.value
  {
    match Lit(StripLeft(t), "[USGS](")
    case None => None
    case Some(t1) =>
      match IndexOf(t1, ")")
      case Some(k) =>
        FirstChar(t1, ')', k);
        if k == 0 then None else Some(t1[..k])
      case None => None
  }

  /** A match of the whole pattern starting at the first character of `t`. */
  function MatchAt(t: string): Option<Record> {
    match Head(t)
    case None => None
    case Some((m, rest)) =>
      match Cell(rest)
      case None => None
      case Some((location, rest1)) =>
        match Cell(rest1)
        case None => None
        case Some((date, rest2)) =>
          match Cell(rest2)
          case None => None
          case Some((coordinates, rest3)) =>
            match Link(rest3)
            case None => None
            case Some(url) =>
              Some(Record(DecimalValue(Before(m, "."), After(m, ".")), Strip(location), Strip(date), Strip(url), AfterLast(url, '/')))
  }

  /** `re.search`: the match at the leftmost position where there is one. */
  function SearchFrom(line: string, i: nat): (r: Option<Record>)
    decreases |line| - i
    ensures r.Some? ==> exists j :: i <= j < |line| && MatchAt(line[j..]) == r
  {
    if i >= |line| then None
    else if MatchAt(line[i..]).Some? then MatchAt(line[i..])
    else SearchFrom(line, i + 1)
  }

  function ParseLine(line: string): Option<Record> {
    SearchFrom(line, 0)
  }

  // ---------------------------------------------------------------------------
  // Reading back a formatted row

  lemma MagnitudeRunOf(m: string, z: string)
    requires forall i :: 0 <= i < |m| ==> MagnitudeChar(m[i])
    requires z != [] && !MagnitudeChar(z[0])
    ensures MagnitudeRun(m + z) == |m|
  {
    if m != [] {
      assert (m + z)[1..] == m[1..] + z;
      MagnitudeRunOf(m[1..], z);
    }
  }

  lemma LitOf(p: string, y: string)
    ensures Lit(p + y, p) == Some(y)
  {
    assert (p + y)[..|p|] == p;
    assert (p + y)[|p|..] == y;
  }

  lemma StripOneBlank(y: string)
    requires y != [] && !IsSpace(y[0])
    ensures StripLeft(" " + y) == y
  {
    assert (" " + y)[1..] == y;
  }

  lemma MagnitudeOf(w: string, f: string)
    requires |w| > 0 && AllDigits(w) && AllDigits(f)
    ensures ValidMagnitude(w + "." + f)
    ensures forall i :: 0 <= i < |w + "." + f| ==> MagnitudeChar((w + "." + f)[i])
    ensures Before(w + "." + f, ".") == w && After(w + "." + f, ".") == f
  {
    NoDotInDigits(w);
    SplitFirst(w, ".", f);
  }

  lemma OpeningOf(y: string)
    ensures Opening("| **" + y) == Some(y)
  {
    assert "| **" + y == "|" + (" " + ("**" + y));
    LitOf("|", " " + ("**" + y));
    StripOneBlank("**" + y);
    LitOf("**", y);
  }

  lemma ClosingOf(x: string)
    ensures Closing("** |" + x) == Some(x)
  {
    assert "** |" + x == "**" + (" " + ("|" + x));
    LitOf("**", " " + ("|" + x));
    StripOneBlank("|" + x);
    LitOf("|", x);
  }

  lemma HeadOf(m: string, x: string)
    requires ValidMagnitude(m) && forall i :: 0 <= i < |m| ==> MagnitudeChar(m[i])
    ensures Head("| **" + (m + ("** |" + x))) == Some((m, x))
  {
    var t1 := m + ("** |" + x);
    OpeningOf(t1);
    MagnitudeRunOf(m, "** |" + x);
    assert t1[..|m|] == m && t1[|m|..] == "** |" + x;
    ClosingOf(x);
  }

  lemma CellOf(c: string, y: string)
    requires |c| > 0 && '|' !in c
    ensures Cell(c + ("|" + y)) == Some((c, y))
  {
    var t := c + ("|" + y);
    assert t[|c|..|c| + 1] == "|";
    FirstOccurrence(t, "|", |c|);
    assert t[..|c|] == c;
    assert t[|c| + 1..] == y;
  }

  lemma LinkOf(url: string, y: string)
    requires |url| > 0 && ')' !in url
    ensures Link(" [USGS](" + (url + (")" + y))) == Some(url)
  {
    var t2 := url + (")" + y);
    LinkOpening(t2);
    CloseAfterUrl(url, y);
    assert t2[..|url|] == url;
  }

  lemma LinkOpening(t2: string)
    ensures Lit(StripLeft(" [USGS](" + t2), "[USGS](") == Some(t2)
  {
    assert " [USGS](" + t2 == " " + ("[USGS](" + t2);
    StripOneBlank("[USGS](" + t2);
    LitOf("[USGS](", t2);
  }

  lemma CloseAfterUrl(url: string, y: string)
    requires |url| > 0 && ')' !in url
    ensures IndexOf(url + (")" + y), ")") == Some(|url|)
  {
    var t2 := url + (")" + y);
    assert t2[|url|..|url| + 1] == ")";
    assert forall j :: 0 <= j < |url| ==> t2[j] == url[j];
    FirstOccurrence(t2, ")", |url|);
  }

  /** The pattern matches a row made of a magnitude, three cells and a link. */
  lemma MatchRow(w: string, f: string, c1: string, c2: string, c3: string, url: string)
    requires |w| > 0 && AllDigits(w) && AllDigits(f)
    requires |c1| > 0 && |c2| > 0 && |c3| > 0 && '|' !in c1 && '|' !in c2 && '|' !in c3
    requires |url| > 0 && ')' !in url
    ensures MatchAt("| **" + ((w + "." + f) + ("** |" + (c1 + ("|" + (c2 + ("|" + (c3 + ("|" + (" [USGS](" + (url + (")" + " |"))))))))))))
         == Some(Record(DecimalValue(w, f), Strip(c1), Strip(c2), Strip(url), AfterLast(url, '/')))
  {
    var tail := " [USGS](" + (url + (")" + " |"));
    var y2 := c3 + ("|" + tail);
    var y1 := c2 + ("|" + y2);
    var x := c1 + ("|" + y1);
    MagnitudeOf(w, f);
    HeadOf(w + "." + f, x);
    CellOf(c1, y1);
    CellOf(c2, y2);
    CellOf(c3, tail);
    LinkOf(url, " |");
  }

  /**
    * Reading a formatted earthquake row gives back its magnitude, its stripped location and
    * date, and its url, with the event id taken after the url's last '/'.
    */
  lemma RowRoundTrip(w: string, f: string, location: string, date: string, latitude: string, longitude: string, url: string)
    requires |w| > 0 && AllDigits(w) && AllDigits(f)
    requires '|' !in location && '|' !in date && '|' !in latitude && '|' !in longitude
    requires |url| > 0 && ')' !in url
    ensures ParseLine(Earthquakes.FormatRow(w + "." + f, location, date, latitude, longitude, url))
         == Some(Record(DecimalValue(w, f), Strip(location), Strip(date), Strip(url), AfterLast(url, '/')))
  {
    var c1 := " " + location + " ";
    var c2 := " " + date + " ";
    var c3 := " " + latitude + ", " + longitude + " ";
    PaddedLacks(location, '|');
    PaddedLacks(date, '|');
    assert '|' !in c3;
    MatchRow(w, f, c1, c2, c3, url);
    var row := Earthquakes.FormatRow(w + "." + f, location, date, latitude, longitude, url);
    assert row[0..] == row;
    StripPadding(location);
    StripPadding(date);
  }

  lemma PaddedLacks(s: string, c: char)
    requires c !in s && c != ' '
    ensures c !in " " + s + " "
  {
  }

  /** A row whose link is empty is not read back: that earthquake is never ingested. */
  lemma EmptyLinkIgnored(y: string)
    ensures Link(" [USGS](" + (")" + y)) == None
  {
    var t1 := ")" + y;
    assert " [USGS](" + t1 == " " + ("[USGS](" + t1);
    StripOneBlank("[USGS](" + t1);
    LitOf("[USGS](", t1);
    assert t1[0..1] == ")";
    FirstOccurrence(t1, ")", 0);
  }

  /** `parse_earthquake_output`: every line of the output, in order, that holds a match. */
  method ParseOutput(output: string) returns (records: seq<Record>)
    ensures records == FilterMap(Split(output, '\n'), ParseLine)
    ensures forall r :: r in records ==> exists line :: line in Split(output, '\n') && ParseLine(line) == Some(r)
  {
    records := Collect(Split(output, '\n'), ParseLine);
  }

  /** Every line holding a match gives its record; no other line gives one. */
  lemma MatchingLinesRead(output: string, line: string)
    requires line in Split(output, '\n') && ParseLine(line).Some?
    ensures ParseLine(line).value in FilterMap(Split(output, '\n'), ParseLine)
  {
    FilterMapKeepsAll(Split(output, '\n'), ParseLine, line);
  }

  // ---------------------------------------------------------------------------
  // The earthquakes table

  /** The table after an INSERT OR IGNORE of each record in turn; the inserts at `failing` positions raise an error. */
  function Ingested(rows: map<string, Record>, batch: seq<Record>, failing: set<nat>): map<string, Record> {
    if batch == [] then rows
    else
      var prev := Ingested(rows, batch[..|batch| - 1], failing);
      var r := batch[|batch| - 1];
      if |batch| - 1 in failing || r.eventId in prev then prev else prev[r.eventId := r]
  }

  /** Rows are only added: an existing row is never overwritten, and at most one row per record. */
  lemma {:induction false} IngestedGrows(rows: map<string, Record>, batch: seq<Record>, failing: set<nat>)
    ensures forall k :: k in rows ==> k in Ingested(rows, batch, failing) && Ingested(rows, batch, failing)[k] == rows[k]
    ensures |rows| <= |Ingested(rows, batch, failing)| <= |rows| + |batch|
    ensures forall k :: k in Ingested(rows, batch, failing) ==>
      k in rows || exists r :: r in batch && r.eventId == k && Ingested(rows, batch, failing)[k] == r
  {
    if batch != [] {
      var init := batch[..|batch| - 1];
      IngestedGrows(rows, init, failing);
      assert forall r :: r in init ==> r in batch;
    }
  }

  function Ids(batch: seq<Record>): set<string> {
    set r | r in batch :: r.eventId
  }

  /** Without failures, the table gains exactly the batch's new event ids, each once. */
  lemma {:induction false} IngestedKeys(rows: map<string, Record>, batch: seq<Record>)
    ensures Ingested(rows, batch, {}).Keys == rows.Keys + Ids(batch)
  {
    if batch != [] {
      var init := batch[..|batch| - 1];
      IngestedKeys(rows, init);
      assert batch == init + [batch[|batch| - 1]];
      assert Ids(batch) == Ids(init) + {batch[|batch| - 1].eventId};
    }
  }

  /** Ingesting a batch again adds nothing and changes nothing. */
  lemma IngestTwice(rows: map<string, Record>, batch: seq<Record>, failing: set<nat>)
    ensures var once := Ingested(rows, batch, {});
      Ingested(once, batch, failing) == once
  {
    var once := Ingested(rows, batch, {});
    IngestedKeys(rows, batch);
    IngestedGrows(once, batch, failing);
    assert Ingested(once, batch, failing).Keys == once.Keys;
  }

  /** The records whose insert does not fail. */
  function Surviving(batch: seq<Record>, failing: set<nat>): seq<Record> {
    if batch == [] then []
    else Surviving(batch[..|batch| - 1], failing) + (if |batch| - 1 in failing then [] else [batch[|batch| - 1]])
  }

  /** A failing insert is skipped and the rest of the batch goes on as if it were not there. */
  lemma {:induction false} FailuresSkipped(rows: map<string, Record>, batch: seq<Record>, failing: set<nat>)
    ensures Ingested(rows, batch, failing) == Ingested(rows, Surviving(batch, failing), {})
  {
    if batch != [] {
      var init := batch[..|batch| - 1];
      FailuresSkipped(rows, init, failing);
      var s := Surviving(init, failing);
      var x := batch[|batch| - 1];
      if |batch| - 1 !in failing {
        assert Surviving(batch, failing) == s + [x];
        assert (s + [x])[..|s + [x]| - 1] == s;
        assert Ingested(rows, s + [x], {}) == (if x.eventId in Ingested(rows, s, {}) then Ingested(rows, s, {})
                                                else Ingested(rows, s, {})[x.eventId := x]);
      } else {
        assert Surviving(batch, failing) == s;
      }
    }
  }

  /** The earthquakes table, keyed on its UNIQUE `event_id`. */
  class EarthquakeStore {
    var rows: map<string, Record>

    constructor ()
      ensures rows == map[]
    {
      rows := map[];
    }

    /** INSERT OR IGNORE: the row goes in only when its event id is new. */
    method InsertOrIgnore(r: Record) returns (inserted: bool)
      modifies this
      ensures inserted <==> r.eventId !in old(rows)
      ensures rows == if inserted then old(rows)[r.eventId := r] else old(rows)
    {
      inserted := r.eventId !in rows;
      if inserted {
        rows := rows[r.eventId := r];
      }
    }

    /**
      * The loop of `ingest_earthquakes`: insert each record, count the inserts, and skip the
      * ones whose insert fails.
      */
    method Ingest(batch: seq<Record>, failing: set<nat>) returns (inserted: nat)
      modifies this
      ensures rows == Ingested(old(rows), batch, failing)
      ensures |rows| == |old(rows)| + inserted && inserted <= |batch|
    {
      inserted := 0;
      var i := 0;
      while i < |batch|
        invariant i <= |batch|
        invariant rows == Ingested(old(rows), batch[..i], failing)
        invariant |rows| == |old(rows)| + inserted
      {
        assert batch[..i + 1][..i] == batch[..i];
        if i !in failing {
          var ok := InsertOrIgnore(batch[i]);
          if ok {
            inserted := inserted + 1;
          }
        }
        i := i + 1;
      }
      assert batch[..i] == batch;
      IngestedGrows(old(rows), batch, failing);
    }
  }

  // ---------------------------------------------------------------------------
  // Trends

  /** The event ids of rows dated on or after `cutoff` (a 'YYYY-MM-DD' text, compared as text). */
  function Recent(rows: map<string, Record>, cutoff: string): set<string> {
    set k | k in rows && LexLe(cutoff, rows[k].date)
  }

  function Major(rows: map<string, Record>, cutoff: string): set<string> {
    set k | k in Recent(rows, cutoff) && rows[k].magnitude >= 6.0
  }

  /** The major-earthquake rate never exceeds the overall rate. */
  lemma MajorRateBounded(rows: map<string, Record>, cutoff: string)
    ensures 0.0 <= |Major(rows, cutoff)| as real / 8.0 <= |Recent(rows, cutoff)| as real / 8.0
  {
    assert Major(rows, cutoff) <= Recent(rows, cutoff);
    SubsetSize(Major(rows, cutoff), Recent(rows, cutoff));
  }

  lemma SubsetSize(a: set<string>, b: set<string>)
    requires a <= b
    ensures |a| <= |b|
  {
    assert b == a + (b - a);
  }

  /**
    * `calculate_trends`: two plain INSERTs, the eight-week averages of all and of major
    * earthquakes since `today - 56`; earlier rows stay as they were.
    */
  method CalculateTrends(store: EarthquakeStore, ledger: TrendLedger, today: int, cutoff: string)
    modifies ledger
    ensures ledger.rows == old(ledger.rows) + [
      TrendRow("avg_earthquakes_per_week", "week", today - 56, today, |Recent(store.rows, cutoff)| as real / 8.0, None),
      TrendRow("major_earthquakes_per_week", "week", today - 56, today, |Major(store.rows, cutoff)| as real / 8.0, None)]
  {
    ledger.Insert(TrendRow("avg_earthquakes_per_week", "week", today - 56, today, |Recent(store.rows, cutoff)| as real / 8.0, None));
    ledger.Insert(TrendRow("major_earthquakes_per_week", "week", today - 56, today, |Major(store.rows, cutoff)| as real / 8.0, None));
  }
}
