/**
  * The string operations the scripts use, over `string` (= `seq<char>`).
  * Python's Unicode classes (`\s`, `\d`, `str.lower`) are approximated by their ASCII part.
  */
module Text {
  import opened Wrappers

  // ---------------------------------------------------------------------------
  // Characters

  /** ASCII part of Python's `\s` / `str.isspace`. */
  predicate IsSpace(c: char) {
    c == ' ' || '\t' <= c <= '\r'
  }

  /** ASCII part of Python's `\d`. */
  predicate IsDigit(c: char) {
    '0' <= c <= '9'
  }

  predicate HasDigit(s: string) {
    exists i :: 0 <= i < |s| && IsDigit(s[i])
  }

  function LowerChar(c: char): char {
    if 'A' <= c <= 'Z' then (c as int + 32) as char else c
  }

  function UpperChar(c: char): char {
    if 'a' <= c <= 'z' then (c as int - 32) as char else c
  }

  /** `s.lower()` (ASCII letters only). */
  function Lower(s: string): (r: string)
    ensures |r| == |s|
    ensures forall i :: 0 <= i < |s| ==> r[i] == LowerChar(s[i])
  {
    seq(|s|, i requires 0 <= i < |s| => LowerChar(s[i]))
  }

  /** `s.upper()` (ASCII letters only). */
  function Upper(s: string): (r: string)
    ensures |r| == |s|
    ensures forall i :: 0 <= i < |s| ==> r[i] == UpperChar(s[i])
  {
    seq(|s|, i requires 0 <= i < |s| => UpperChar(s[i]))
  }

  /** Upper-casing twice is upper-casing once. */
  lemma UpperIdempotent(s: string)
    ensures Upper(Upper(s)) == Upper(s)
  {
  }

  // ---------------------------------------------------------------------------
  // Substrings: Python's `sub in s`, `s.split(sep)[k]`, `s.startswith(p)`

  predicate StartsWith(s: string, prefix: string) {
    |prefix| <= |s| && s[..|prefix|] == prefix
  }

  predicate OccursAt(s: string, sub: string, i: nat) {
    i + |sub| <= |s| && s[i..i + |sub|] == sub
  }

  /** Python's `sub in s`. */
  predicate Contains(s: string, sub: string) {
    exists i: nat :: i <= |s| && OccursAt(s, sub, i)
  }

  /** A string cannot contain a text holding a character it lacks. */
  lemma MissingCharNotContained(s: string, sub: string, c: char)
    requires c in sub && c !in s
    ensures !Contains(s, sub)
  {
    var j :| 0 <= j < |sub| && sub[j] == c;
    forall i: nat | i <= |s| ensures !OccursAt(s, sub, i) {
      if i + |sub| <= |s| {
        assert s[i..i + |sub|][j] == s[i + j];
      }
    }
  }

  /** The first occurrence of `sub` at or after `from`. */
  function IndexFrom(s: string, sub: string, from: nat): (r: Option<nat>)
    decreases |s| - from
    ensures r.Some? ==> from <= r.value && OccursAt(s, sub, r.value)
    ensures r.Some? ==> forall j: nat :: from <= j < r.value ==> !OccursAt(s, sub, j)
    ensures r.None? ==> forall j: nat :: from <= j ==> !OccursAt(s, sub, j)
  {
    if from + |sub| > |s| then None
    else if OccursAt(s, sub, from) then Some(from)
    else IndexFrom(s, sub, from + 1)
  }

  /** Python's `s.find(sub)`, as an option. */
  function IndexOf(s: string, sub: string): (r: Option<nat>)
    ensures r.Some? <==> Contains(s, sub)
    ensures r.Some? ==> OccursAt(s, sub, r.value)
    ensures r.Some? ==> forall j: nat :: j < r.value ==> !OccursAt(s, sub, j)
  {
    IndexFrom(s, sub, 0)
  }

  /** The first occurrence is at `k` when `sub` occurs there and its first character occurs nowhere before. */
  lemma FirstOccurrence(s: string, sub: string, k: nat)
    requires |sub| > 0 && OccursAt(s, sub, k)
    requires forall j :: 0 <= j < k ==> s[j] != sub[0]
    ensures IndexOf(s, sub) == Some(k)
  {
    var r := IndexOf(s, sub);
    assert r.Some?;
    var i := r.value;
    assert s[i..i + |sub|][0] == s[i];
    assert s[i] == sub[0];
    assert i <= k;
  }

  /**
    * A prefix holding no copy of `sep`'s first character shifts the first occurrence of `sep`
    * by its length and adds none of its own.
    */
  lemma IndexOfShift(p: string, y: string, sep: string)
    requires |sep| > 0 && sep[0] !in p
    ensures IndexOf(p + y, sep) == if IndexOf(y, sep).Some? then Some(IndexOf(y, sep).value + |p|) else None
  {
    var s := p + y;
    forall j: nat | j <= |s| && OccursAt(s, sep, j)
      ensures j >= |p| && OccursAt(y, sep, j - |p|)
    {
      ShiftOccurrence(p, y, sep, j);
    }
    match IndexOf(y, sep)
    case Some(k) =>
      ShiftOccurrenceBack(p, y, sep, k);
      assert Contains(s, sep);
    case None =>
      assert !Contains(s, sep);
  }

  /** An occurrence in `p + y` lies wholly in `y` when `p` lacks the first character of `sep`. */
  lemma ShiftOccurrence(p: string, y: string, sep: string, j: nat)
    requires |sep| > 0 && sep[0] !in p && OccursAt(p + y, sep, j)
    ensures j >= |p| && OccursAt(y, sep, j - |p|)
  {
    var s := p + y;
    assert s[j..j + |sep|][0] == s[j];
    assert y[j - |p|..j - |p| + |sep|] == s[j..j + |sep|];
  }

  lemma ShiftOccurrenceBack(p: string, y: string, sep: string, k: nat)
    requires OccursAt(y, sep, k)
    ensures OccursAt(p + y, sep, k + |p|)
  {
    assert (p + y)[k + |p|..k + |p| + |sep|] == y[k..k + |sep|];
  }

  /** Splitting `x + sep + y` at its first `sep`, when `x` cannot start one. */
  lemma SplitFirst(x: string, sep: string, y: string)
    requires |sep| > 0 && sep[0] !in x
    ensures Before(x + sep + y, sep) == x
    ensures After(x + sep + y, sep) == y
  {
    var s := x + sep + y;
    assert s[|x|..|x| + |sep|] == sep;
    FirstOccurrence(s, sep, |x|);
    assert s[..|x|] == x;
    assert s[|x| + |sep|..] == y;
  }

  /** `s.split(sep)[0]`: the text before the first `sep`, or all of `s`. */
  function Before(s: string, sep: string): string {
    match IndexOf(s, sep)
    case Some(i) => s[..i]
    case None => s
  }

  /** The text before the separator is a prefix of `s`. */
  lemma BeforePrefix(s: string, sep: string)
    ensures |Before(s, sep)| <= |s| && Before(s, sep) == s[..|Before(s, sep)|]
  {
  }

  /** A digit of a slice is a digit of the whole. */
  lemma SliceDigit(s: string, a: nat, b: nat)
    requires a <= b <= |s| && HasDigit(s[a..b])
    ensures HasDigit(s)
  {
    var i :| 0 <= i < b - a && IsDigit(s[a..b][i]);
    assert s[a + i] == s[a..b][i];
  }

  /** `s.split(sep, 1)[1]` when `sep` occurs (empty otherwise). */
  function After(s: string, sep: string): string {
    match IndexOf(s, sep)
    case Some(i) => s[i + |sep|..]
    case None => []
  }

  /** Where `sep` occurs, `s` is the text before its first occurrence, `sep`, and the rest. */
  lemma SplitAround(s: string, sep: string)
    requires |sep| > 0 && Contains(s, sep)
    ensures s == Before(s, sep) + sep + After(s, sep)
    ensures !Contains(Before(s, sep), sep)
  {
    var k := IndexOf(s, sep).value;
    assert s == s[..k] + s[k..k + |sep|] + s[k + |sep|..];
    assert IndexFrom(s, sep, 0) == Some(k);
    forall j: nat | j <= k ensures !OccursAt(s[..k], sep, j) {
      if j + |sep| <= k {
        assert !OccursAt(s, sep, j);
        assert s[..k][j..j + |sep|] == s[j..j + |sep|];
      }
    }
  }

  /** At the first occurrence of a character, the text before it lacks that character. */
  lemma FirstChar(s: string, c: char, k: nat)
    requires IndexOf(s, [c]) == Some(k)
    ensures s == s[..k] + [c] + s[k + 1..] && c !in s[..k]
  {
    assert s[k..k + 1] == [c];
    SplitAround(s, [c]);
    forall i | 0 <= i < k ensures s[i] != c {
      assert s[..k][i..i + 1] == [s[i]];
      assert !OccursAt(s[..k], [c], i);
    }
  }

  /** `Before` and `After` look through a prefix that cannot start `sep`. */
  lemma BeforeShift(p: string, y: string, sep: string)
    requires |sep| > 0 && sep[0] !in p
    ensures Before(p + y, sep) == p + Before(y, sep)
    ensures After(p + y, sep) == After(y, sep)
  {
    IndexOfShift(p, y, sep);
    match IndexOf(y, sep)
    case Some(k) =>
      assert (p + y)[..k + |p|] == p + y[..k];
      assert (p + y)[k + |p| + |sep|..] == y[k + |sep|..];
    case None =>
  }

  /** `s.split(c)[-1]`: the text after the last `c`, or all of `s`. */
  function AfterLast(s: string, c: char): (r: string)
    ensures |r| <= |s| && r == s[|s| - |r|..]
    ensures c !in r
    ensures c in s ==> s[|s| - |r| - 1] == c
    ensures c !in s ==> r == s
  {
    if s == [] then []
    else if s[|s| - 1] == c then []
    else AfterLast(s[..|s| - 1], c) + [s[|s| - 1]]
  }

  /** `s.split(c)`, including the empty pieces. */
  function Split(s: string, c: char): (r: seq<string>)
    ensures |r| >= 1
  {
    if s == [] then [[]]
    else
      var rest := Split(s[1..], c);
      if s[0] == c then [[]] + rest else [[s[0]] + rest[0]] + rest[1..]
  }

  /** `sep.join(parts)` for a one-character separator. */
  function Join(parts: seq<string>, c: char): string {
    if parts == [] then []
    else if |parts| == 1 then parts[0]
    else parts[0] + [c] + Join(parts[1..], c)
  }

  lemma {:induction false} SplitPiecesFree(s: string, c: char)
    ensures forall k :: 0 <= k < |Split(s, c)| ==> c !in Split(s, c)[k]
  {
    if s != [] {
      SplitPiecesFree(s[1..], c);
    }
  }

  /** Splitting on `c` and joining with `c` gives the text back. */
  lemma {:induction false} JoinSplit(s: string, c: char)
    ensures Join(Split(s, c), c) == s
  {
    if s != [] {
      var rest := Split(s[1..], c);
      JoinSplit(s[1..], c);
      if s[0] == c {
        assert Split(s, c) == [[]] + rest;
        assert ([[]] + rest)[1..] == rest;
      } else {
        var r := Split(s, c);
        assert r == [[s[0]] + rest[0]] + rest[1..];
        if |rest| == 1 {
          assert Join(r, c) == [s[0]] + rest[0];
        } else {
          assert r[1..] == rest[1..];
          assert Join(rest, c) == rest[0] + [c] + Join(rest[1..], c);
          assert Join(r, c) == [s[0]] + rest[0] + [c] + Join(rest[1..], c);
        }
      }
    }
  }

  // ---------------------------------------------------------------------------
  // Whitespace: `s.strip()`, `re.sub(r'\s+', ' ', s)`

  /** How many whitespace characters `s` starts with. */
  function LeadingSpaces(s: string): (n: nat)
    ensures n <= |s|
    ensures forall i :: 0 <= i < n ==> IsSpace(s[i])
    ensures n < |s| ==> !IsSpace(s[n])
  {
    if s != [] && IsSpace(s[0]) then
      var n := 1 + LeadingSpaces(s[1..]);
      assert forall i :: 1 <= i < n ==> s[i] == s[1..][i - 1];
      n
    else 0
  }

  /** The three properties above fix the count. */
  lemma LeadingSpacesUnique(s: string, n: nat)
    requires n <= |s| && (forall i :: 0 <= i < n ==> IsSpace(s[i])) && (n < |s| ==> !IsSpace(s[n]))
    ensures LeadingSpaces(s) == n
  {
    var m := LeadingSpaces(s);
    assert m < |s| ==> !IsSpace(s[m]);
    assert n < |s| ==> !IsSpace(s[n]);
  }

  /** The length of `s` without its trailing whitespace. */
  function TrimmedLength(s: string): (n: nat)
    ensures n <= |s|
    ensures forall i :: n <= i < |s| ==> IsSpace(s[i])
    ensures n > 0 ==> !IsSpace(s[n - 1])
  {
    if s != [] && IsSpace(s[|s| - 1]) then TrimmedLength(s[..|s| - 1]) else |s|
  }

  lemma TrimmedLengthUnique(s: string, n: nat)
    requires n <= |s| && (forall i :: n <= i < |s| ==> IsSpace(s[i])) && (n > 0 ==> !IsSpace(s[n - 1]))
    ensures TrimmedLength(s) == n
  {
    var m := TrimmedLength(s);
    assert m > 0 ==> !IsSpace(s[m - 1]);
    assert n > 0 ==> !IsSpace(s[n - 1]);
  }

  /** `s.lstrip()`. */
  function StripLeft(s: string): (r: string)
    ensures r == [] || !IsSpace(r[0])
  {
    s[LeadingSpaces(s)..]
  }

  /** `s.rstrip()`. */
  function StripRight(s: string): (r: string)
    ensures r == [] || !IsSpace(r[|r| - 1])
  {
    s[..TrimmedLength(s)]
  }

  /** `s.strip()`: `s` without its leading and trailing whitespace. */
  function Strip(s: string): (r: string)
    ensures r == [] || (!IsSpace(r[0]) && !IsSpace(r[|r| - 1]))
    ensures exists a, b :: 0 <= a <= b <= |s| && r == s[a..b]
  {
    var a := LeadingSpaces(s);
    var l := s[a..];
    var r := l[..TrimmedLength(l)];
    assert r == s[a..a + TrimmedLength(l)];
    assert r != [] ==> r[0] == l[0];
    r
  }

  /** Text after its leading whitespace is unaffected by what follows it. */
  lemma StripLeftAppend(a: string, b: string)
    requires StripLeft(a) != []
    ensures StripLeft(a + b) == StripLeft(a) + b
  {
    var n := LeadingSpaces(a);
    assert forall i :: 0 <= i <= n ==> (a + b)[i] == a[i];
    LeadingSpacesUnique(a + b, n);
    assert (a + b)[n..] == a[n..] + b;
  }

  /** A trailing blank is stripped from the right. */
  lemma StripRightBlank(l: string)
    ensures StripRight(l + " ") == StripRight(l)
  {
    var n := TrimmedLength(l);
    assert forall i :: 0 <= i < |l| ==> (l + " ")[i] == l[i];
    TrimmedLengthUnique(l + " ", n);
    assert (l + " ")[..n] == l[..n];
  }

  /** One blank on either side makes no difference once stripped. */
  lemma StripPadding(x: string)
    ensures Strip(" " + x + " ") == Strip(x)
  {
    var p := " " + x + " ";
    var n := LeadingSpaces(x);
    assert forall i :: 0 <= i < |x| ==> p[i + 1] == x[i];
    if n < |x| {
      LeadingSpacesUnique(p, n + 1);
      assert p[n + 1..] == x[n..] + " ";
      StripRightBlank(x[n..]);
    } else {
      LeadingSpacesUnique(p, |p|);
    }
  }

  /** Stripping removes characters, never adds one. */
  lemma StripKeepsOut(s: string, c: char)
    requires c !in s
    ensures c !in Strip(s)
  {
    var r := Strip(s);
    var a, b :| 0 <= a <= b <= |s| && r == s[a..b];
    forall j | 0 <= j < |r| ensures r[j] != c {
      assert r[j] == s[a + j];
    }
  }

  /** Text without whitespace at either end is left as it is by `strip()`. */
  lemma StripTrimmed(s: string)
    requires s == [] || (!IsSpace(s[0]) && !IsSpace(s[|s| - 1]))
    ensures Strip(s) == s
  {
    LeadingSpacesUnique(s, 0);
    assert s[0..] == s;
    TrimmedLengthUnique(s, |s|);
  }

  /** No two neighbouring characters are both whitespace. */
  predicate NoDoubleSpace(s: string) {
    forall i :: 1 <= i < |s| ==> !(IsSpace(s[i - 1]) && IsSpace(s[i]))
  }

  /** Every whitespace character is a plain blank. */
  predicate BlanksOnly(s: string) {
    forall i :: 0 <= i < |s| ==> IsSpace(s[i]) ==> s[i] == ' '
  }

  /** `re.sub(r'\s+', ' ', s)`: each maximal whitespace run becomes one blank. */
  function CollapseSpaces(s: string): (r: string)
    decreases |s|
    ensures NoDoubleSpace(r) && BlanksOnly(r)
    ensures s == [] <==> r == []
    ensures s != [] ==> r[0] == (if IsSpace(s[0]) then ' ' else s[0])
  {
    if s == [] then []
    else if IsSpace(s[0]) then
      var t := StripLeft(s);
      [' '] + CollapseSpaces(t)
    else
      [s[0]] + CollapseSpaces(s[1..])
  }

  lemma SliceKeepsNormal(s: string, a: nat, b: nat)
    requires a <= b <= |s| && NoDoubleSpace(s) && BlanksOnly(s)
    ensures NoDoubleSpace(s[a..b]) && BlanksOnly(s[a..b])
  {
    var t := s[a..b];
    forall i | 1 <= i < |t| ensures !(IsSpace(t[i - 1]) && IsSpace(t[i])) {
      assert t[i - 1] == s[a + i - 1] && t[i] == s[a + i];
    }
    forall i | 0 <= i < |t| && IsSpace(t[i]) ensures t[i] == ' ' {
      assert t[i] == s[a + i];
    }
  }

  /** What the scripts' `clean_html` ends with: collapse whitespace runs, then strip. */
  function NormalizeSpaces(s: string): (r: string)
    ensures r == [] || (!IsSpace(r[0]) && !IsSpace(r[|r| - 1]))
    ensures NoDoubleSpace(r) && BlanksOnly(r)
  {
    var c := CollapseSpaces(s);
    var r := Strip(c);
    var a, b :| 0 <= a <= b <= |c| && r == c[a..b];
    SliceKeepsNormal(c, a, b);
    r
  }

  // ---------------------------------------------------------------------------
  // Tags: `re.sub('<.*?>', '', s)` (`.` does not match a newline)

  /** Offset of the first '>' in `s` that comes before any newline. */
  function CloseOffset(s: string): (r: Option<nat>)
    ensures r.Some? ==> r.value < |s| && s[r.value] == '>'
  {
    if s == [] || s[0] == '\n' then None
    else if s[0] == '>' then Some(0)
    else
      match CloseOffset(s[1..])
      case Some(j) => Some(j + 1)
      case None => None
  }

  /** Deletes every '<' together with the text up to the next '>' on the same line. */
  function RemoveTags(s: string): string
    decreases |s|
  {
    if s == [] then []
    else if s[0] == '<' && CloseOffset(s[1..]).Some? then RemoveTags(s[CloseOffset(s[1..]).value + 2..])
    else [s[0]] + RemoveTags(s[1..])
  }

  /** No '<' in `s` is followed by a '>' on the same line. */
  predicate TagFree(s: string) {
    forall i :: 0 <= i < |s| && s[i] == '<' ==> CloseOffset(s[i + 1..]).None?
  }

  /** Tag removal keeps a line's "no '>' before the newline" property. */
  lemma {:induction false} RemoveTagsKeepsOpenLine(t: string)
    requires CloseOffset(t).None?
    ensures CloseOffset(RemoveTags(t)).None?
  {
    if t != [] && t[0] != '\n' {
      assert CloseOffset(t[1..]).None?;
      RemoveTagsKeepsOpenLine(t[1..]);
      var r := RemoveTags(t);
      assert r == [t[0]] + RemoveTags(t[1..]);
      assert r[1..] == RemoveTags(t[1..]);
    }
  }

  /** After tag removal no tag remains: every '<' left is unmatched on its line. */
  lemma {:induction false} RemoveTagsTagFree(s: string)
    ensures TagFree(RemoveTags(s))
  {
    if s != [] {
      if s[0] == '<' && CloseOffset(s[1..]).Some? {
        RemoveTagsTagFree(s[CloseOffset(s[1..]).value + 2..]);
      } else {
        var rest := RemoveTags(s[1..]);
        var r := [s[0]] + rest;
        assert RemoveTags(s) == r;
        RemoveTagsTagFree(s[1..]);
        forall i | 0 <= i < |r| && r[i] == '<' ensures CloseOffset(r[i + 1..]).None? {
          if i == 0 {
            RemoveTagsKeepsOpenLine(s[1..]);
            assert r[1..] == rest;
          } else {
            assert r[i + 1..] == rest[i..];
            assert rest[i - 1] == '<';
          }
        }
      }
    }
  }

  // ---------------------------------------------------------------------------
  // `s.replace(pat, rep)`: left to right, non-overlapping

  function ReplaceAll(s: string, pat: string, rep: string): (r: string)
    requires |pat| > 0
    decreases |s|
  {
    if |s| < |pat| then s
    else if s[..|pat|] == pat then rep + ReplaceAll(s[|pat|..], pat, rep)
    else [s[0]] + ReplaceAll(s[1..], pat, rep)
  }

  lemma {:induction false} ReplaceAbsent(s: string, pat: string, rep: string)
    requires |pat| > 0 && !Contains(s, pat)
    ensures ReplaceAll(s, pat, rep) == s
  {
    if |s| >= |pat| {
      assert !OccursAt(s, pat, 0);
      forall i: nat | i <= |s[1..]| ensures !OccursAt(s[1..], pat, i) {
        assert !OccursAt(s, pat, i + 1);
      }
      ReplaceAbsent(s[1..], pat, rep);
    }
  }

  /** `s[:n] + '...' if len(s) > n else s`. */
  function Truncate(s: string, n: nat): (r: string)
    ensures |r| <= n + 3
    ensures |s| <= n ==> r == s
    ensures |s| > n ==> StartsWith(r, s[..n]) && r[n..] == "..."
  {
    if |s| > n then s[..n] + "..." else s
  }

  // ---------------------------------------------------------------------------
  // Numbers: Python's `int(...)` and `float(...)` on decimal text

  function DigitValue(c: char): nat
    requires IsDigit(c)
  {
    c as int - '0' as int
  }

  predicate AllDigits(s: string) {
    forall i :: 0 <= i < |s| ==> IsDigit(s[i])
  }

  function DigitsValue(s: string): nat
    requires AllDigits(s)
  {
    if s == [] then 0 else DigitsValue(s[..|s| - 1]) * 10 + DigitValue(s[|s| - 1])
  }

  function Pow10(n: nat): (r: nat)
    ensures r >= 1
  {
    if n == 0 then 1 else 10 * Pow10(n - 1)
  }

  /** Python's `int(s)` on ASCII text: optional blanks, an optional sign, one or more digits. */
  function ParseInt(s: string): (r: Option<int>)
    ensures r.Some? ==> HasDigit(s)
  {
    var t := Strip(s);
    var neg := |t| > 0 && t[0] == '-';
    var body := if |t| > 0 && (t[0] == '-' || t[0] == '+') then t[1..] else t;
    if |body| > 0 && AllDigits(body) then
      var l := StripLeft(s);
      var j := |s| - |l| + (|t| - |body|);
      assert body[0] == t[|t| - |body|] == l[|t| - |body|] == s[j];
      assert IsDigit(s[j]);
      Some(if neg then -(DigitsValue(body) as int) else DigitsValue(body) as int)
    else None
  }

  /** Blanks around a run of digits are stripped away. */
  lemma StripPadded(d: string)
    requires |d| > 0 && AllDigits(d)
    ensures Strip(" " + d + " ") == d
  {
    StripPadding(d);
    assert IsDigit(d[0]) && IsDigit(d[|d| - 1]);
    StripTrimmed(d);
  }

  /** `int(str(n)) == n`. */
  lemma ParseIntDecimal(n: nat)
    ensures ParseInt(DecimalString(n)) == Some(n)
  {
    ParseIntDigits(DecimalString(n));
    DecimalStringValue(n);
  }

  /** A plain run of digits parses to its value. */
  lemma ParseIntDigits(d: string)
    requires |d| > 0 && AllDigits(d)
    ensures ParseInt(d) == Some(DigitsValue(d) as int)
  {
    assert IsDigit(d[0]) && IsDigit(d[|d| - 1]);
    StripTrimmed(d);
    var t := Strip(d);
    assert t == d;
    assert t[0] != '-' && t[0] != '+';
  }

  /** The value of `whole.frac` written in decimal digits. */
  function DecimalValue(whole: string, frac: string): real
    requires AllDigits(whole) && AllDigits(frac)
  {
    DigitsValue(whole) as real + DigitsValue(frac) as real / Pow10(|frac|) as real
  }

  /**
    * Python's `float(s)` on plain decimal text: optional blanks, an optional sign, digits with at
    * most one '.', at least one digit.  Exponents, `inf` and `nan` are not modelled.
    */
  function ParseDecimal(s: string): Option<real> {
    var t := Strip(s);
    if |t| > 0 && t[0] == '-' then
      match ParseUnsigned(t[1..])
      case Some(v) => Some(-v)
      case None => None
    else if |t| > 0 && t[0] == '+' then ParseUnsigned(t[1..])
    else ParseUnsigned(t)
  }

  /** Digits with at most one '.', at least one digit. */
  function ParseUnsigned(body: string): Option<real> {
    var whole := Before(body, ".");
    var frac := After(body, ".");
    if AllDigits(whole) && AllDigits(frac) && |whole| + |frac| > 0 && !Contains(frac, ".")
    then Some(DecimalValue(whole, frac))
    else None
  }

  lemma NoDotInDigits(s: string)
    requires AllDigits(s)
    ensures '.' !in s && !Contains(s, ".")
  {
    assert forall i | 0 <= i < |s| :: s[i] != '.' by {
      forall i | 0 <= i < |s| ensures s[i] != '.' {
        assert IsDigit(s[i]);
      }
    }
    MissingCharNotContained(s, ".", '.');
  }

  /** Unpadded text starting with a digit has no sign to read. */
  lemma ParseDecimalUnsigned(s: string)
    requires |s| > 0 && IsDigit(s[0]) && !IsSpace(s[|s| - 1])
    ensures ParseDecimal(s) == ParseUnsigned(s)
  {
    assert StripLeft(s) == s;
    assert StripRight(s) == s;
  }

  /** `float(w + '.' + f)` on digit strings. */
  lemma ParseDecimalPlain(w: string, f: string)
    requires |w| > 0 && AllDigits(w) && AllDigits(f)
    ensures ParseDecimal(w + "." + f) == Some(DecimalValue(w, f))
  {
    var s := w + "." + f;
    assert s[0] == w[0];
    assert s[|s| - 1] == if f == [] then '.' else f[|f| - 1];
    NoDotInDigits(w);
    NoDotInDigits(f);
    SplitFirst(w, ".", f);
    ParseDecimalUnsigned(s);
  }

  /** `str(n)` for a natural number. */
  function DecimalString(n: nat): (r: string)
    ensures |r| > 0 && AllDigits(r)
  {
    if n < 10 then [('0' as int + n) as char]
    else DecimalString(n / 10) + [('0' as int + n % 10) as char]
  }

  /** Reading back the digits of `str(n)` gives `n`. */
  lemma {:induction false} DecimalStringValue(n: nat)
    ensures DigitsValue(DecimalString(n)) == n
  {
    var r := DecimalString(n);
    if n >= 10 {
      DecimalStringValue(n / 10);
      assert r[..|r| - 1] == DecimalString(n / 10);
    }
  }

  lemma DecimalStringInjective(m: nat, n: nat)
    requires DecimalString(m) == DecimalString(n)
    ensures m == n
  {
    DecimalStringValue(m);
    DecimalStringValue(n);
  }

  // ---------------------------------------------------------------------------
  // Python string comparison (code-point lexicographic order)

  predicate LexLe(a: string, b: string) {
    |a| == 0 || (|b| > 0 && (a[0] < b[0] || (a[0] == b[0] && LexLe(a[1..], b[1..]))))
  }

  /** Any two strings compare one way or the other. */
  lemma {:induction false} LexLeTotal(a: string, b: string)
    ensures LexLe(a, b) || LexLe(b, a)
  {
    if |a| > 0 && |b| > 0 && a[0] == b[0] {
      LexLeTotal(a[1..], b[1..]);
    }
  }

  lemma {:induction false} LexLeTransitive(a: string, b: string, c: string)
    requires LexLe(a, b) && LexLe(b, c)
    ensures LexLe(a, c)
  {
    if |a| > 0 && a[0] == b[0] && b[0] == c[0] {
      LexLeTransitive(a[1..], b[1..], c[1..]);
    }
  }
}
