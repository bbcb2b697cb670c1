/**
 * The dashboard's preview formatter: it injects a viewport meta tag and a
 * responsive style block into the head of a report document so that the
 * report fits the preview frame. An empty input yields an empty output.
 */
module FormatHtml {
  import opened Wrappers
  import opened Text

  const Head: string := "<head>"
  const HeadClose: string := "</head>"
  const HtmlTag: string := "<html>"

  /** The lines of the injected viewport meta tag and style block, character for character. */
  const StyleLines: seq<string> := [
    "    <meta name=\"viewport\" content=\"width=device-width, initial-scale=1.0\">",
    "    <style>",
    "      body {",
    "        margin: 0;",
    "        padding: 0;",
    "        overflow-x: hidden;",
    "        max-width: 100%;",
    "      }",
    "      table {",
    "        width: 100% !important;",
    "        max-width: 100% !important;",
    "      }",
    "      table[width=\"700\"] {",
    "        width: 100% !important;",
    "        max-width: 700px !important;",
    "      }",
    "      img {",
    "        max-width: 100%;",
    "        height: auto;",
    "      }",
    "      /* Disable links */",
    "      a {",
    "        pointer-events: none;",
    "        cursor: default;",
    "        text-decoration: none;",
    "        color: inherit;",
    "      }",
    "      @media (max-width: 768px) {",
    "        table[width=\"700\"] td {",
    "          padding: 16px !important;",
    "        }",
    "        table td[style*=\"width:50%\"] {",
    "          display: block !important;",
    "          width: 100% !important;",
    "          padding: 0 0 16px 0 !important;",
    "        }",
    "        h2 {",
    "          font-size: 20px !important;",
    "        }",
    "        div[style*=\"font-size:48px\"] {",
    "          font-size: 36px !important;",
    "        }",
    "      }",
    "    </style>"
  ]

  /** The injected block: a line break, then the lines joined by line breaks. */
  const ResponsiveStyle: string := "\n" + Join(StyleLines, "\n")

  /** The block inserted when the document has no head of its own. */
  function Wrapped(style: string): string
  {
    Head + style + HeadClose
  }

  /**
   * The insertion logic for any style text: the style right after the
   * first `<head>`; failing that, a whole head right after the first
   * `<html>`; failing that, a whole head in front of the document. An
   * empty input yields an empty output, and otherwise exactly one block
   * is added.
   */
  function Insert(html: string, style: string): (r: string)
    ensures html == "" <==> r == ""
    ensures html != "" && Contains(html, Head) ==> |r| == |html| + |style|
    ensures html != "" && !Contains(html, Head) ==> |r| == |html| + |Wrapped(style)|
  {
    if html == "" then ""
    else if Contains(html, Head) then ReplaceFirst(html, Head, Head + style)
    else if Contains(html, HtmlTag) then ReplaceFirst(html, HtmlTag, HtmlTag + Head + style + HeadClose)
    else Head + style + HeadClose + html
  }

  /** `formatHTML(html)`. */
  function Format(html: string): string
  {
    Insert(html, ResponsiveStyle)
  }

  /** With a `<head>` present, the style goes right behind the first one. */
  lemma InsertIntoHead(html: string, style: string)
    requires html != "" && Contains(html, Head)
    ensures var n := IndexOf(html, Head).value + |Head|;
      n <= |html| && Insert(html, style) == html[..n] + style + html[n..]
  {
    ReplaceFirstAppendsAfter(html, Head, style);
  }

  /** Without a `<head>` but with an `<html>`, a whole head goes right behind the first `<html>`. */
  lemma InsertIntoHtml(html: string, style: string)
    requires html != "" && !Contains(html, Head) && Contains(html, HtmlTag)
    ensures var n := IndexOf(html, HtmlTag).value + |HtmlTag|;
      n <= |html| && Insert(html, style) == html[..n] + Wrapped(style) + html[n..]
  {
    ReplaceFirstAppendsAfter(html, HtmlTag, Wrapped(style));
    assert HtmlTag + Head + style + HeadClose == HtmlTag + Wrapped(style);
  }

  /** With neither tag, a whole head goes in front of the document. */
  lemma InsertInFront(html: string, style: string)
    requires html != "" && !Contains(html, Head) && !Contains(html, HtmlTag)
    ensures Insert(html, style) == Wrapped(style) + html
  {
  }

  /** Two texts that agree on a prefix agree on an occurrence that fits inside it. */
  lemma SamePrefixSameOccurrence(s: string, t: string, p: string, n: nat, m: nat)
    requires n <= |s| && n <= |t| && s[..n] == t[..n] && m + |p| <= n
    ensures OccursAt(s, p, m) <==> OccursAt(t, p, m)
  {
    assert s[m..m + |p|] == s[..n][m..m + |p|];
    assert t[m..m + |p|] == t[..n][m..m + |p|];
  }

  /** The result has a first `<head>` at `j` with the style right after it. */
  predicate StyleAfterFirstHead(r: string, style: string, j: nat)
  {
    IndexOf(r, Head) == Some(j) && OccursAt(r, style, j + |Head|)
  }

  /** The result has a `<head>`, and the style right after the first one. */
  predicate StyleFollowsHead(r: string, style: string)
  {
    Contains(r, Head) && OccursAt(r, style, IndexOf(r, Head).value + |Head|)
  }

  lemma StyleAfterExistingHead(html: string, style: string)
    requires html != "" && Contains(html, Head)
    ensures StyleAfterFirstHead(Insert(html, style), style, IndexOf(html, Head).value)
  {
    var r := Insert(html, style);
    var i := IndexOf(html, Head).value;
    var n := i + |Head|;
    InsertIntoHead(html, style);
    assert r[..n] == html[..n];
    forall m | 0 <= m < i
      ensures !OccursAt(r, Head, m)
    {
      SamePrefixSameOccurrence(r, html, Head, n, m);
    }
    SamePrefixSameOccurrence(r, html, Head, n, i);
    FirstOccurrence(r, Head, i);
    assert r[n..n + |style|] == style;
  }

  /** No `<head>` starts in a prefix copied from a head-less text and ending in `<html>`. */
  lemma NoHeadUpToHtmlTag(r: string, html: string, k: nat, m: nat)
    requires !Contains(html, Head)
    requires k + |HtmlTag| <= |r| && k + |HtmlTag| <= |html|
    requires r[..k + |HtmlTag|] == html[..k + |HtmlTag|] && r[k..k + |HtmlTag|] == HtmlTag
    requires m < k + |HtmlTag|
    ensures !OccursAt(r, Head, m)
  {
    if m < k {
      SamePrefixSameOccurrence(r, html, Head, k + |HtmlTag|, m);
    } else if m == k {
      assert r[k + 1] == r[k..k + |HtmlTag|][1];
      if m + |Head| <= |r| {
        assert r[m..m + |Head|][1] == r[k + 1];
      }
    } else {
      assert r[m] == r[k..k + |HtmlTag|][m - k];
      if m + |Head| <= |r| {
        assert r[m..m + |Head|][0] == r[m];
      }
    }
  }

  /** A wrapped head placed after `a` opens right after `a`, with the style behind it. */
  lemma WrappedAfter(a: string, style: string, b: string)
    ensures var t := a + Wrapped(style) + b;
      t[..|a|] == a && OccursAt(t, Head, |a|) && OccursAt(t, style, |a| + |Head|)
  {
    var t := a + Wrapped(style) + b;
    assert t == a + Head + style + (HeadClose + b);
    assert t[|a|..|a| + |Head|] == Head;
    assert t[|a| + |Head|..|a| + |Head| + |style|] == style;
  }

  lemma StyleAfterNewHeadInHtml(html: string, style: string)
    requires html != "" && !Contains(html, Head) && Contains(html, HtmlTag)
    ensures StyleAfterFirstHead(Insert(html, style), style, IndexOf(html, HtmlTag).value + |HtmlTag|)
  {
    var r := Insert(html, style);
    var k := IndexOf(html, HtmlTag).value;
    var n := k + |HtmlTag|;
    InsertIntoHtml(html, style);
    WrappedAfter(html[..n], style, html[n..]);
    assert r[k..n] == r[..n][k..n];
    forall m | 0 <= m < n
      ensures !OccursAt(r, Head, m)
    {
      NoHeadUpToHtmlTag(r, html, k, m);
    }
    FirstOccurrence(r, Head, n);
  }

  lemma StyleAfterNewHeadInFront(html: string, style: string)
    requires html != "" && !Contains(html, Head) && !Contains(html, HtmlTag)
    ensures StyleAfterFirstHead(Insert(html, style), style, 0)
  {
    InsertInFront(html, style);
    WrappedAfter("", style, html);
    assert "" + Wrapped(style) + html == Wrapped(style) + html;
    FirstOccurrence(Insert(html, style), Head, 0);
  }

  /**
   * Whatever the input, a non-empty document comes out with the style
   * directly after its first `<head>`.
   */
  lemma StyleFollowsFirstHead(html: string, style: string)
    requires html != ""
    ensures StyleFollowsHead(Insert(html, style), style)
  {
    if Contains(html, Head) {
      StyleAfterExistingHead(html, style);
    } else if Contains(html, HtmlTag) {
      StyleAfterNewHeadInHtml(html, style);
    } else {
      StyleAfterNewHeadInFront(html, style);
    }
  }

  /**
   * Insertion is not idempotent: an output already has a head, so
   * inserting again adds a second copy of the style.
   */
  lemma InsertTwiceAddsStyleAgain(html: string, style: string)
    requires html != ""
    ensures |Insert(Insert(html, style), style)| == |Insert(html, style)| + |style|
  {
    StyleFollowsFirstHead(html, style);
  }

  /** The input is recovered from the output by deleting the one inserted block. */
  lemma InsertsOneBlock(html: string, style: string)
    requires html != ""
    ensures exists i :: 0 <= i <= |html| && (Insert(html, style) == html[..i] + style + html[i..] || Insert(html, style) == html[..i] + Wrapped(style) + html[i..])
  {
    if Contains(html, Head) {
      InsertIntoHead(html, style);
    } else if Contains(html, HtmlTag) {
      InsertIntoHtml(html, style);
    } else {
      InsertInFront(html, style);
      assert html[..0] == "" && html[0..] == html;
      assert Insert(html, style) == html[..0] + Wrapped(style) + html[0..];
    }
  }

  /**
   * The formatter's own guarantees, for its actual style block: an empty
   * document stays empty; any other comes out with the block directly
   * after its first `<head>`.
   */
  lemma FormatPlacesStyle(html: string)
    ensures html == "" <==> Format(html) == ""
    ensures html != "" ==> StyleFollowsHead(Format(html), ResponsiveStyle)
  {
    if html != "" {
      StyleFollowsFirstHead(html, ResponsiveStyle);
    }
  }

  /** Formatting twice adds the style block a second time. */
  lemma FormatTwiceAddsStyleAgain(html: string)
    requires html != ""
    ensures |Format(Format(html))| == |Format(html)| + |ResponsiveStyle|
  {
    InsertTwiceAddsStyleAgain(html, ResponsiveStyle);
  }
}
