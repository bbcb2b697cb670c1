/**
 * The audit result as the handlers read it, the two plain-text formats the
 * handlers flatten it into, and the report generator's text rewrites: the
 * bolding of the `Issue:`/`Suggestions:` labels, the logo base URL and the
 * values interpolated into the report template.
 */
module Report {
  import opened Wrappers
  import opened Text
  import Urls

  /** One conversion blocker: the issue and its suggested improvements. */
  datatype Blocker = Blocker(issue: string, suggestions: seq<string>)

  /** The parsed model answer, as far as the handlers use it. */
  datatype ParsedAudit = ParsedAudit(blockers: seq<Blocker>, recommendations: seq<string>)

  // ---------------------------------------------------------------------
  // Format of the audit handlers: paragraphs separated by a blank line
  // ---------------------------------------------------------------------

  /** One blocker's paragraph, without the separator that precedes later blockers. */
  function Paragraph(b: Blocker): string
  {
    "Issue: " + b.issue + "\n\nSuggestions:\n\n" + Join(b.suggestions, "\n\n") + "\n\n"
  }

  function Paragraphs(bs: seq<Blocker>): (ps: seq<string>)
    ensures |ps| == |bs|
    ensures forall i :: 0 <= i < |bs| ==> ps[i] == Paragraph(bs[i])
  {
    seq(|bs|, i requires 0 <= i < |bs| => Paragraph(bs[i]))
  }

  /** The blocker text: the paragraphs in order, each after the first preceded by a newline. */
  function BlockersText(bs: seq<Blocker>): string
  {
    Join(Paragraphs(bs), "\n")
  }

  /** The recommendation text of the audit handlers. */
  function RecommendationsText(recs: seq<string>): string
  {
    Join(recs, "\n\n")
  }

  /**
   * The handlers' loop: `blockers += (i === 0 ? "" : "\n") + paragraph`. It
   * computes the paragraphs joined by a single newline.
   */
  method SerializeBlockers(bs: seq<Blocker>) returns (text: string)
    ensures text == Join(Paragraphs(bs), "\n")
    ensures |bs| == 0 ==> text == ""
  {
    text := "";
    var i := 0;
    while i < |bs|
      invariant 0 <= i <= |bs|
      invariant text == Join(Paragraphs(bs[..i]), "\n")
    {
      var b := bs[i];
      var prefix := if i == 0 then "" else "\n";
      var piece := "Issue: " + b.issue + "\n\nSuggestions:\n\n" + Join(b.suggestions, "\n\n") + "\n\n";
      assert piece == Paragraph(b);
      assert Paragraphs(bs[..i + 1]) == Paragraphs(bs[..i]) + [piece];
      if i > 0 {
        JoinSnoc(Paragraphs(bs[..i]), piece, "\n");
      } else {
        assert Paragraphs(bs[..1]) == [piece];
      }
      text := text + prefix + piece;
      i := i + 1;
    }
    assert bs[..|bs|] == bs;
  }

  // ---------------------------------------------------------------------
  // Format of the manual-fetch handler: compact, comma-separated
  // ---------------------------------------------------------------------

  function CompactParagraph(b: Blocker): string
  {
    "Issue: " + b.issue + "\nSuggestions: " + Join(b.suggestions, ", ") + "\n\n"
  }

  function CompactParagraphs(bs: seq<Blocker>): (ps: seq<string>)
    ensures |ps| == |bs|
    ensures forall i :: 0 <= i < |bs| ==> ps[i] == CompactParagraph(bs[i])
  {
    seq(|bs|, i requires 0 <= i < |bs| => CompactParagraph(bs[i]))
  }

  function CompactBlockersText(bs: seq<Blocker>): string
  {
    Concat(CompactParagraphs(bs))
  }

  function CompactRecommendationsText(recs: seq<string>): string
  {
    Join(recs, ", ")
  }

  /**
   * The manual-fetch handler's loop: `blockers += paragraph` with no
   * separator. The text is the paragraphs back to back, so a non-empty text
   * starts with the first issue label.
   */
  method SerializeBlockersCompact(bs: seq<Blocker>) returns (text: string)
    ensures text == Concat(CompactParagraphs(bs))
    ensures |bs| == 0 ==> text == ""
    ensures |bs| > 0 ==> StartsWith(text, "Issue: ")
  {
    text := "";
    var i := 0;
    while i < |bs|
      invariant 0 <= i <= |bs|
      invariant text == Concat(CompactParagraphs(bs[..i]))
    {
      var b := bs[i];
      var piece := "Issue: " + b.issue + "\nSuggestions: " + Join(b.suggestions, ", ") + "\n\n";
      assert piece == CompactParagraph(b);
      assert CompactParagraphs(bs[..i + 1]) == CompactParagraphs(bs[..i]) + [piece];
      ConcatSnoc(CompactParagraphs(bs[..i]), piece);
      text := text + piece;
      i := i + 1;
    }
    assert bs[..|bs|] == bs;
    if |bs| > 0 {
      var ps := CompactParagraphs(bs);
      assert text == ps[0] + Concat(ps[1..]);
      assert ps[0][..7] == "Issue: ";
      assert text[..7] == ps[0][..7];
    }
  }

  // ---------------------------------------------------------------------
  // Bolding of the labels in the report
  // ---------------------------------------------------------------------

  const IssueLabel: string := "Issue:"
  const SuggestionsLabel: string := "Suggestions:"
  const BoldIssueLabel: string := "<b>Issue:</b>"
  const BoldSuggestionsLabel: string := "<b>Suggestions:</b>"

  /** `.replace(/Issue:/g, "<b>Issue:</b>").replace(/Suggestions:/g, "<b>Suggestions:</b>")`. */
  function Bold(s: string): string
  {
    ReplaceAll(ReplaceAll(s, IssueLabel, BoldIssueLabel), SuggestionsLabel, BoldSuggestionsLabel)
  }

  /** Text that mentions neither label, so bolding leaves it alone. */
  predicate Plain(t: string)
  {
    !Contains(t, IssueLabel) && !Contains(t, SuggestionsLabel)
  }

  predicate PlainBlocker(b: Blocker)
  {
    Plain(b.issue) && forall j :: 0 <= j < |b.suggestions| ==> Plain(b.suggestions[j])
  }

  /** The paragraph the report shows for a blocker whose own text mentions no label. */
  function BoldParagraph(b: Blocker): string
  {
    "<b>Issue:</b> " + b.issue + "\n\n<b>Suggestions:</b>\n\n" + Join(b.suggestions, "\n\n") + "\n\n"
  }

  function BoldParagraphs(bs: seq<Blocker>): (ps: seq<string>)
    ensures |ps| == |bs|
    ensures forall i :: 0 <= i < |bs| ==> ps[i] == BoldParagraph(bs[i])
  {
    seq(|bs|, i requires 0 <= i < |bs| => BoldParagraph(bs[i]))
  }

  /** A seam at a space or newline, which neither label contains. */
  predicate Seam(a: string, b: string)
  {
    |a| == 0 || |b| == 0 || a[|a| - 1] in " \n" || b[0] in " \n"
  }

  /** Bolding works piecewise across a seam. */
  lemma BoldAppend(a: string, b: string)
    requires Seam(a, b)
    ensures Bold(a + b) == Bold(a) + Bold(b)
  {
    assert ' ' !in IssueLabel && '\n' !in IssueLabel;
    assert ' ' !in SuggestionsLabel && '\n' !in SuggestionsLabel;
    ReplaceAllAppend(a, b, IssueLabel, BoldIssueLabel);
    var a1 := ReplaceAll(a, IssueLabel, BoldIssueLabel);
    var b1 := ReplaceAll(b, IssueLabel, BoldIssueLabel);
    if |a| > 0 && a[|a| - 1] in " \n" {
      ReplaceAllKeepsLast(a, IssueLabel, BoldIssueLabel);
    } else if |b| > 0 && b[0] in " \n" {
      ReplaceAllKeepsFirst(b, IssueLabel, BoldIssueLabel);
    }
    assert Apart(a1, b1, SuggestionsLabel);
    ReplaceAllAppend(a1, b1, SuggestionsLabel, BoldSuggestionsLabel);
  }

  lemma BoldPlain(t: string)
    requires Plain(t)
    ensures Bold(t) == t
  {
    ReplaceAllAbsent(t, IssueLabel, BoldIssueLabel);
    ReplaceAllAbsent(t, SuggestionsLabel, BoldSuggestionsLabel);
  }

  /** Bolding a text in which neither label's first letter appears changes nothing. */
  lemma BoldNoCapitals(t: string)
    requires 'I' !in t && 'S' !in t
    ensures Bold(t) == t
  {
    AbsentWithoutFirstChar(t, IssueLabel);
    AbsentWithoutFirstChar(t, SuggestionsLabel);
    BoldPlain(t);
  }

  lemma BoldIssueLead()
    ensures Bold("Issue: ") == "<b>Issue:</b> "
  {
    assert "Issue: " == IssueLabel + " ";
    ReplaceAllLeading(IssueLabel, " ", BoldIssueLabel);
    AbsentWithoutFirstChar(" ", IssueLabel);
    ReplaceAllAbsent(" ", IssueLabel, BoldIssueLabel);
    assert BoldIssueLabel + " " == "<b>Issue:</b> ";
    AbsentWithoutFirstChar("<b>Issue:</b> ", SuggestionsLabel);
    ReplaceAllAbsent("<b>Issue:</b> ", SuggestionsLabel, BoldSuggestionsLabel);
  }

  /** A lone `Suggestions:` label between label-free separators is bolded and nothing else. */
  lemma BoldAroundSuggestions(a: string, b: string)
    requires 'I' !in a && 'S' !in a && 'I' !in b && 'S' !in b
    requires |a| > 0 && a[|a| - 1] == '\n'
    ensures Bold(a + SuggestionsLabel + b) == a + BoldSuggestionsLabel + b
  {
    var t := a + (SuggestionsLabel + b);
    assert a + SuggestionsLabel + b == t;
    assert 'I' !in SuggestionsLabel;
    assert 'I' !in t;
    AbsentWithoutFirstChar(t, IssueLabel);
    ReplaceAllAbsent(t, IssueLabel, BoldIssueLabel);
    assert '\n' !in SuggestionsLabel;
    ReplaceAllAppend(a, SuggestionsLabel + b, SuggestionsLabel, BoldSuggestionsLabel);
    AbsentWithoutFirstChar(a, SuggestionsLabel);
    ReplaceAllAbsent(a, SuggestionsLabel, BoldSuggestionsLabel);
    ReplaceAllLeading(SuggestionsLabel, b, BoldSuggestionsLabel);
    AbsentWithoutFirstChar(b, SuggestionsLabel);
    ReplaceAllAbsent(b, SuggestionsLabel, BoldSuggestionsLabel);
  }

  /** Suggestions joined by blank lines keep their text when it mentions no label. */
  lemma {:induction false} BoldJoinPlain(xs: seq<string>)
    requires forall j :: 0 <= j < |xs| ==> Plain(xs[j])
    ensures Bold(Join(xs, "\n\n")) == Join(xs, "\n\n")
    decreases |xs|
  {
    if |xs| == 1 {
      BoldPlain(xs[0]);
    } else if |xs| > 1 {
      var rest := Join(xs[1..], "\n\n");
      BoldJoinPlain(xs[1..]);
      BoldAppend(xs[0] + "\n\n", rest);
      BoldAppend(xs[0], "\n\n");
      BoldPlain(xs[0]);
      BoldNoCapitals("\n\n");
    }
  }

  lemma BoldIssuePart(issue: string)
    requires Plain(issue)
    ensures Bold("Issue: " + issue) == "<b>Issue:</b> " + issue
  {
    BoldAppend("Issue: ", issue);
    BoldIssueLead();
    BoldPlain(issue);
  }

  lemma BoldSuggestionsPart(x: string)
    ensures Bold(x + ("\n\n" + SuggestionsLabel + "\n\n"))
         == Bold(x) + ("\n\n" + BoldSuggestionsLabel + "\n\n")
  {
    var nl := "\n\n";
    BoldAppend(x, nl + SuggestionsLabel + nl);
    BoldAroundSuggestions(nl, nl);
  }

  lemma BoldTailPart(y: string, j: string)
    requires |y| > 0 && y[|y| - 1] == '\n'
    requires Bold(j) == j
    ensures Bold(y + j + "\n\n") == Bold(y) + j + "\n\n"
  {
    BoldAppend(y, j);
    BoldAppend(y + j, "\n\n");
    BoldNoCapitals("\n\n");
  }

  lemma BoldParagraphOf(b: Blocker)
    requires PlainBlocker(b)
    ensures Bold(Paragraph(b)) == BoldParagraph(b)
  {
    var nl := "\n\n";
    var mid := nl + SuggestionsLabel + nl;
    var boldMid := nl + BoldSuggestionsLabel + nl;
    var j := Join(b.suggestions, nl);
    var x := "Issue: " + b.issue;
    var y := x + mid;
    assert y[|y| - 1] == '\n';
    BoldJoinPlain(b.suggestions);
    calc {
      Bold(Paragraph(b));
      == { assert "\n\nSuggestions:\n\n" == mid; }
      Bold(y + j + nl);
      == { BoldTailPart(y, j); }
      Bold(y) + j + nl;
      == { BoldSuggestionsPart(x); }
      Bold(x) + boldMid + j + nl;
      == { BoldIssuePart(b.issue); }
      "<b>Issue:</b> " + b.issue + boldMid + j + nl;
      == { assert "\n\n<b>Suggestions:</b>\n\n" == boldMid; }
      BoldParagraph(b);
    }
  }

  /**
   * Bolding the serialised blocker text of blockers whose own text mentions
   * no label bolds exactly the two labels of every paragraph and changes
   * nothing else.
   */
  lemma {:induction false} BoldBlockersText(bs: seq<Blocker>)
    requires forall i :: 0 <= i < |bs| ==> PlainBlocker(bs[i])
    ensures Bold(BlockersText(bs)) == Join(BoldParagraphs(bs), "\n")
    decreases |bs|
  {
    if |bs| == 1 {
      BoldParagraphOf(bs[0]);
    } else if |bs| > 1 {
      var ps := Paragraphs(bs);
      assert ps[1..] == Paragraphs(bs[1..]);
      assert BoldParagraphs(bs)[1..] == BoldParagraphs(bs[1..]);
      var p0 := ps[0];
      var rest := Join(ps[1..], "\n");
      assert BlockersText(bs) == (p0 + "\n") + rest;
      BoldAppend(p0 + "\n", rest);
      BoldAppend(p0, "\n");
      BoldParagraphOf(bs[0]);
      BoldNoCapitals("\n");
      BoldBlockersText(bs[1..]);
    }
  }

  // ---------------------------------------------------------------------
  // Values interpolated into the report template
  // ---------------------------------------------------------------------

  /**
   * The base URL of the logo in the current handler: the production domain,
   * else the deployment URL, each behind `https://`, else the local server.
   */
  function ReportBaseUrl(productionUrl: Option<string>, deploymentUrl: Option<string>): (r: string)
    ensures Truthy(productionUrl) ==> r == "https://" + productionUrl.value
    ensures !Truthy(productionUrl) && Truthy(deploymentUrl) ==> r == "https://" + deploymentUrl.value
    ensures !Truthy(productionUrl) && !Truthy(deploymentUrl) ==> r == "http://localhost:3000"
  {
    if Truthy(productionUrl) then "https://" + productionUrl.value
    else if Truthy(deploymentUrl) then "https://" + deploymentUrl.value
    else "http://localhost:3000"
  }

  /** The earlier handler's logo base URL: only the deployment URL is consulted. */
  function LegacyReportBaseUrl(deploymentUrl: Option<string>): (r: string)
    ensures r == ReportBaseUrl(None, deploymentUrl)
  {
    if Truthy(deploymentUrl) then "https://" + deploymentUrl.value else "http://localhost:3000"
  }

  /** What the report template interpolates. */
  datatype ReportSlots = ReportSlots(
    logoUrl: string,
    domainName: string,
    blockersHtml: string,
    recommendations: string)

  /**
   * The report's interpolated values: the logo under the base URL, the
   * display domain, the bolded blocker text and the recommendations as given.
   */
  function RenderSlots(baseUrl: string, url: string, blockers: string, recommendations: string,
                       hostname: string -> Option<string>): (r: ReportSlots)
    ensures r.logoUrl == baseUrl + "/BOW-Big.png"
    ensures r.domainName == Urls.DomainName(url, hostname)
    ensures Plain(blockers) ==> r.blockersHtml == blockers
    ensures r.recommendations == recommendations
  {
    assert Plain(blockers) ==> Bold(blockers) == blockers by {
      if Plain(blockers) {
        BoldPlain(blockers);
      }
    }
    ReportSlots(baseUrl + "/BOW-Big.png", Urls.DomainName(url, hostname), Bold(blockers), recommendations)
  }
}
