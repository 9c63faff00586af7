/**
  * The three `clean_html` variants of the feed scripts: tag removal, entity decoding (in a fixed
  * order) and whitespace normalisation.
  */
module Html {
  import opened Wrappers
  import opened Text

  /** The entity chain of the UN and World Bank feeds, applied left to right. */
  function DecodeEntities(s: string, ellipsis: bool): string {
    var a := ReplaceAll(s, "&amp;", "&");
    var b := ReplaceAll(a, "&lt;", "<");
    var c := ReplaceAll(b, "&gt;", ">");
    var d := ReplaceAll(c, "&quot;", "\"");
    var e := ReplaceAll(d, "&#39;", "'");
    var f := if ellipsis then ReplaceAll(e, "&#8230;", "...") else e;
    ReplaceAll(f, "&nbsp;", " ")
  }

  /** UN peacekeeping `clean_html`: a missing text cleans to "". */
  function CleanUn(text: Option<string>): (r: string)
    ensures text.None? ==> r == []
    ensures r == [] || (!IsSpace(r[0]) && !IsSpace(r[|r| - 1]))
    ensures NoDoubleSpace(r) && BlanksOnly(r)
  {
    match text
    case None => []
    case Some(t) => NormalizeSpaces(DecodeEntities(RemoveTags(t), false))
  }

  /** World Bank `clean_html`: as the UN one, also turning '&#8230;' into '...'. */
  function CleanWorldBank(text: Option<string>): (r: string)
    ensures text.None? ==> r == []
    ensures r == [] || (!IsSpace(r[0]) && !IsSpace(r[|r| - 1]))
    ensures NoDoubleSpace(r) && BlanksOnly(r)
  {
    match text
    case None => []
    case Some(t) => NormalizeSpaces(DecodeEntities(RemoveTags(t), true))
  }

  /** FRED `clean_html`: tags and whitespace only, no entity decoding. */
  function CleanFred(text: string): (r: string)
    ensures r == [] || (!IsSpace(r[0]) && !IsSpace(r[|r| - 1]))
    ensures NoDoubleSpace(r) && BlanksOnly(r)
  {
    NormalizeSpaces(RemoveTags(text))
  }

  // ---------------------------------------------------------------------------
  // Plain text passes through unchanged

  /** Text that is already trimmed, single-blanked and free of '<' and '&'. */
  predicate Plain(s: string) {
    '<' !in s && '&' !in s && NoDoubleSpace(s) && BlanksOnly(s)
    && (s == [] || (!IsSpace(s[0]) && !IsSpace(s[|s| - 1])))
  }

  lemma {:induction false} RemoveTagsWithoutOpen(s: string)
    requires '<' !in s
    ensures RemoveTags(s) == s
  {
    if s != [] {
      RemoveTagsWithoutOpen(s[1..]);
      assert s == [s[0]] + s[1..];
    }
  }

  lemma {:induction false} CollapseNormal(s: string)
    requires NoDoubleSpace(s) && BlanksOnly(s)
    ensures CollapseSpaces(s) == s
  {
    if s != [] {
      SliceKeepsNormal(s, 1, |s|);
      CollapseNormal(s[1..]);
      if IsSpace(s[0]) {
        assert StripLeft(s[1..]) == s[1..] by {
          assert |s| > 1 ==> !IsSpace(s[1]);
        }
        assert StripLeft(s) == s[1..];
      }
      assert s == [s[0]] + s[1..];
    }
  }

  lemma DecodeWithoutAmpersand(s: string, ellipsis: bool)
    requires '&' !in s
    ensures DecodeEntities(s, ellipsis) == s
  {
    var pats := ["&amp;", "&lt;", "&gt;", "&quot;", "&#39;", "&#8230;", "&nbsp;"];
    forall k | 0 <= k < |pats| ensures !Contains(s, pats[k]) {
      assert pats[k][0] == '&';
      MissingCharNotContained(s, pats[k], '&');
    }
    assert !Contains(s, pats[0]) && !Contains(s, pats[1]) && !Contains(s, pats[2]) && !Contains(s, pats[3]);
    assert !Contains(s, pats[4]) && !Contains(s, pats[5]) && !Contains(s, pats[6]);
    ReplaceAbsent(s, "&amp;", "&");
    ReplaceAbsent(s, "&lt;", "<");
    ReplaceAbsent(s, "&gt;", ">");
    ReplaceAbsent(s, "&quot;", "\"");
    ReplaceAbsent(s, "&#39;", "'");
    ReplaceAbsent(s, "&#8230;", "...");
    ReplaceAbsent(s, "&nbsp;", " ");
  }

  /** Cleaning leaves plain text as it is (so cleaning plain text twice changes nothing). */
  lemma CleanKeepsPlain(s: string)
    requires Plain(s)
    ensures CleanUn(Some(s)) == s
    ensures CleanWorldBank(Some(s)) == s
    ensures CleanFred(s) == s
  {
    RemoveTagsWithoutOpen(s);
    DecodeWithoutAmpersand(s, false);
    DecodeWithoutAmpersand(s, true);
    NormalizePlain(s);
  }

  lemma NormalizePlain(s: string)
    requires NoDoubleSpace(s) && BlanksOnly(s)
    requires s == [] || (!IsSpace(s[0]) && !IsSpace(s[|s| - 1]))
    ensures NormalizeSpaces(s) == s
  {
    CollapseNormal(s);
    StripTrimmed(s);
  }

  // ---------------------------------------------------------------------------
  // Consequences of the order of the steps

  /** '&amp;' is decoded first, so an escaped entity is decoded twice. */
  lemma DoubleDecoding()
    ensures CleanUn(Some("&amp;lt;")) == "<"
  {
    var s := "&amp;lt;";
    RemoveTagsWithoutOpen(s);
    DecodeAmpersandFirst();
    DecodeLessThan();
    ShortUnchanged("<", "&gt;", ">");
    ShortUnchanged("<", "&quot;", "\"");
    ShortUnchanged("<", "&#39;", "'");
    ShortUnchanged("<", "&nbsp;", " ");
    assert DecodeEntities(s, false) == "<";
    NormalizePlain("<");
  }

  lemma DecodeAmpersandFirst()
    ensures ReplaceAll("&amp;lt;", "&amp;", "&") == "&lt;"
  {
    var s := "&amp;lt;";
    assert s[..5] == "&amp;";
    ShortUnchanged(s[5..], "&amp;", "&");
    assert s[5..] == "lt;";
  }

  lemma DecodeLessThan()
    ensures ReplaceAll("&lt;", "&lt;", "<") == "<"
  {
    var s := "&lt;";
    assert s[..4] == "&lt;";
    assert s[4..] == [];
  }

  /** A text shorter than the pattern is left alone. */
  lemma ShortUnchanged(s: string, pat: string, rep: string)
    requires 0 < |pat| && |s| < |pat|
    ensures ReplaceAll(s, pat, rep) == s
  {
  }

  /**
    * Tags are removed before whitespace is collapsed, and '.' in the tag pattern stops at a
    * newline: a tag broken across lines survives and comes out on one line.
    */
  lemma SplitTagSurvives()
    ensures CleanFred("<a\nb>") == "<a b>"
  {
    SplitTagKept();
    CollapseSplitTag();
    NormalizePlain("<a b>");
    assert Strip("<a b>") == "<a b>";
  }

  lemma SplitTagKept()
    ensures RemoveTags("<a\nb>") == "<a\nb>"
  {
    var s := "<a\nb>";
    assert s[1..] == "a\nb>";
    assert s[1..][1..] == "\nb>";
    assert CloseOffset(s[1..][1..]) == None;
    assert CloseOffset(s[1..]) == None;
    RemoveTagsWithoutOpen(s[1..]);
    assert s == [s[0]] + s[1..];
  }

  lemma CollapseSplitTag()
    ensures CollapseSpaces("<a\nb>") == "<a b>"
  {
    CollapseOneSpace('<', 'a', '\n', 'b', '>');
  }

  lemma CollapseOneSpace(a: char, b: char, c: char, d: char, e: char)
    requires !IsSpace(a) && !IsSpace(b) && IsSpace(c) && !IsSpace(d) && !IsSpace(e)
    ensures CollapseSpaces([a, b, c, d, e]) == [a, b, ' ', d, e]
  {
    CollapseCons(e, []);
    assert CollapseSpaces([]) == [];
    assert [d, e] == [d] + [e];
    CollapseCons(d, [e]);
    assert [c, d, e] == [c] + [d, e];
    CollapseSpaceCons(c, [d, e]);
    assert [b, c, d, e] == [b] + [c, d, e];
    CollapseCons(b, [c, d, e]);
    assert [a, b, c, d, e] == [a] + [b, c, d, e];
    CollapseCons(a, [b, c, d, e]);
  }

  lemma CollapseCons(c: char, t: string)
    requires !IsSpace(c)
    ensures CollapseSpaces([c] + t) == [c] + CollapseSpaces(t)
  {
    assert ([c] + t)[1..] == t;
  }

  lemma CollapseSpaceCons(c: char, t: string)
    requires IsSpace(c) && (t == [] || !IsSpace(t[0]))
    ensures CollapseSpaces([c] + t) == [' '] + CollapseSpaces(t)
  {
    assert ([c] + t)[1..] == t;
    assert StripLeft(t) == t;
  }

  /** So FRED's cleaning is not idempotent: the surviving tag goes on a second pass. */
  lemma CleanFredNotIdempotent()
    ensures CleanFred(CleanFred("<a\nb>")) == []
  {
    SplitTagSurvives();
    WholeTagRemoved();
  }

  lemma WholeTagRemoved()
    ensures RemoveTags("<a b>") == []
  {
    var s := "<a b>";
    assert s[1..] == "a b>";
    assert CloseOffset(">") == Some(0);
    assert ">" == "b>"[1..];
    assert CloseOffset("b>") == Some(1);
    assert "b>" == " b>"[1..];
    assert CloseOffset(" b>") == Some(2);
    assert " b>" == "a b>"[1..];
    assert CloseOffset("a b>") == Some(3);
    assert s[5..] == [];
  }
}
