/**
 * The SEO helpers: the site's base URL, schema.org JSON-LD objects,
 * breadcrumb lists and per-page metadata (keywords, titles, canonical URL).
 * The environment variables are parameters.
 */
module Seo {
  import opened Wrappers
  import opened Text
  import opened Json

  const DefaultSiteUrl: string := "https://pagesense.co"
  const SchemaContext: string := "https://schema.org"
  const SiteName: string := "Pagesense"

  /**
   * `getBaseUrl()`: the public URL if set, else the deployment URL behind
   * `https://`, else the production domain. Empty values count as unset.
   */
  function BaseUrl(publicUrl: Option<string>, deploymentUrl: Option<string>): (r: string)
    ensures Truthy(publicUrl) ==> r == publicUrl.value
    ensures !Truthy(publicUrl) && Truthy(deploymentUrl) ==> r == "https://" + deploymentUrl.value
    ensures !Truthy(publicUrl) && !Truthy(deploymentUrl) ==> r == DefaultSiteUrl
    ensures |r| > 0
  {
    if Truthy(publicUrl) then publicUrl.value
    else if Truthy(deploymentUrl) then "https://" + deploymentUrl.value
    else DefaultSiteUrl
  }

  // ---------------------------------------------------------------------
  // JSON-LD
  // ---------------------------------------------------------------------

  /** The fields `generateJSONLD` writes before spreading its data. */
  function LdHeader(kind: string, baseUrl: string): seq<Field>
  {
    [Field("@context", JString(SchemaContext)), Field("@type", JString(kind)), Field("url", JString(baseUrl))]
  }

  const HeaderKeys: seq<string> := ["@context", "@type", "url"]

  /** `generateJSONLD({type, data})` with the base URL already resolved. */
  function JsonLd(baseUrl: string, kind: string, data: seq<Field>): seq<Field>
  {
    Spread(LdHeader(kind, baseUrl), data)
  }

  /** The header's own bindings. */
  lemma HeaderLookup(kind: string, baseUrl: string, k: string)
    ensures Keys(LdHeader(kind, baseUrl)) == HeaderKeys
    ensures Lookup(LdHeader(kind, baseUrl), k) ==
      if k == "@context" then Some(JString(SchemaContext))
      else if k == "@type" then Some(JString(kind))
      else if k == "url" then Some(JString(baseUrl))
      else None
  {
    var h := LdHeader(kind, baseUrl);
    var h1 := [Field("@type", JString(kind)), Field("url", JString(baseUrl))];
    var h2 := [Field("url", JString(baseUrl))];
    assert h[1..] == h1 && h1[1..] == h2 && h2[1..] == [];
    assert Lookup(h2, k) == if k == "url" then Some(JString(baseUrl)) else None;
    assert Lookup(h1, k) == if k == "@type" then Some(JString(kind)) else Lookup(h2, k);
    assert Keys(h) == ["@context"] + Keys(h1);
  }

  /** None of the header keys is an array index. */
  lemma HeaderKeysNamed()
    ensures forall i :: 0 <= i < |HeaderKeys| ==> !IndexKey(HeaderKeys[i])
    ensures NamedKeys(HeaderKeys) == HeaderKeys
  {
    forall i | 0 <= i < |HeaderKeys|
      ensures !IndexKey(HeaderKeys[i])
    {
      assert !IsDigit(HeaderKeys[i][0]);
    }
    NamedKeysOfNamed(HeaderKeys);
  }

  /** Every key of a JSON-LD object comes from the header or from `data`. */
  lemma JsonLdKeysFrom(baseUrl: string, kind: string, data: seq<Field>, k: string)
    requires k in Keys(JsonLd(baseUrl, kind, data))
    ensures k in HeaderKeys || k in Keys(data)
  {
    HeaderLookup(kind, baseUrl, k);
    SpreadLookup(LdHeader(kind, baseUrl), data, k);
  }

  /**
   * The three header keys are written first, in order, whatever `data`
   * holds, and they lead the keys that are not array indices. So when
   * `data` has no array-index key, the serialised object starts with them;
   * array-index keys in `data` would be listed before them.
   */
  lemma JsonLdKeyOrder(baseUrl: string, kind: string, data: seq<Field>)
    ensures |JsonLd(baseUrl, kind, data)| >= 3
    ensures Keys(JsonLd(baseUrl, kind, data))[..3] == HeaderKeys
    ensures var named := NamedKeys(Keys(JsonLd(baseUrl, kind, data)));
      |named| >= 3 && named[..3] == HeaderKeys
    ensures (forall k :: k in Keys(data) ==> !IndexKey(k)) ==>
      NamedKeys(Keys(JsonLd(baseUrl, kind, data))) == Keys(JsonLd(baseUrl, kind, data))
  {
    HeaderLookup(kind, baseUrl, "");
    HeaderKeysNamed();
    SpreadKeepsBaseKeys(LdHeader(kind, baseUrl), data);
    SpreadKeepsNamedBaseKeys(LdHeader(kind, baseUrl), data);
    var ks := Keys(JsonLd(baseUrl, kind, data));
    if forall k :: k in Keys(data) ==> !IndexKey(k) {
      forall i | 0 <= i < |ks|
        ensures !IndexKey(ks[i])
      {
        JsonLdKeysFrom(baseUrl, kind, data, ks[i]);
      }
      NamedKeysOfNamed(ks);
    }
  }

  /**
   * A key supplied in `data` takes `data`'s value even when it is a header
   * key; a header key that `data` does not supply keeps its header value;
   * nothing else is present.
   */
  lemma JsonLdLookup(baseUrl: string, kind: string, data: seq<Field>, k: string)
    ensures k in Keys(data) ==> Lookup(JsonLd(baseUrl, kind, data), k) == LastLookup(data, k)
    ensures k !in Keys(data) ==>
      Lookup(JsonLd(baseUrl, kind, data), k) == Lookup(LdHeader(kind, baseUrl), k)
  {
    HeaderLookup(kind, baseUrl, k);
    SpreadLookup(LdHeader(kind, baseUrl), data, k);
  }

  // ---------------------------------------------------------------------
  // Breadcrumbs
  // ---------------------------------------------------------------------

  /** One `ListItem` of a breadcrumb list. */
  datatype Crumb = Crumb(position: int, name: string, item: string)

  function CrumbJson(c: Crumb): Value
  {
    JObject([Field("@type", JString("ListItem")), Field("position", JInt(c.position)),
             Field("name", JString(c.name)), Field("item", JString(c.item))])
  }

  function CrumbsJson(cs: seq<Crumb>): Value
  {
    JArray(seq(|cs|, i requires 0 <= i < |cs| => CrumbJson(cs[i])))
  }

  /** A caller-supplied breadcrumb entry. */
  datatype Link = Link(name: string, url: string)

  /** The links numbered consecutively from `start`, in input order. */
  function Numbered(links: seq<Link>, start: int): (cs: seq<Crumb>)
    ensures |cs| == |links|
    ensures forall k :: 0 <= k < |links| ==> cs[k] == Crumb(start + k, links[k].name, links[k].url)
    decreases |links|
  {
    if |links| == 0 then []
    else [Crumb(start, links[0].name, links[0].url)] + Numbered(links[1..], start + 1)
  }

  /** `generateBreadcrumbJSONLD(items)`. */
  function BreadcrumbJsonLd(baseUrl: string, links: seq<Link>): seq<Field>
  {
    JsonLd(baseUrl, "BreadcrumbList", [Field("itemListElement", CrumbsJson(Numbered(links, 1)))])
  }

  /**
   * The breadcrumb JSON-LD lists the links in input order as positions
   * 1..n with their names and URLs copied, under the JSON-LD header.
   */
  lemma BreadcrumbJsonLdShape(baseUrl: string, links: seq<Link>)
    ensures var r := BreadcrumbJsonLd(baseUrl, links);
      Lookup(r, "@type") == Some(JString("BreadcrumbList"))
      && Lookup(r, "url") == Some(JString(baseUrl))
      && Lookup(r, "itemListElement") == Some(CrumbsJson(Numbered(links, 1)))
    ensures var cs := Numbered(links, 1);
      forall k :: 0 <= k < |links| ==> cs[k].position == k + 1 && cs[k].name == links[k].name && cs[k].item == links[k].url
  {
    var items := CrumbsJson(Numbered(links, 1));
    var data := [Field("itemListElement", items)];
    assert Keys(data) == ["itemListElement"];
    assert LastLookup(data, "itemListElement") == Some(items);
    JsonLdLookup(baseUrl, "BreadcrumbList", data, "@type");
    HeaderLookup("BreadcrumbList", baseUrl, "@type");
    JsonLdLookup(baseUrl, "BreadcrumbList", data, "url");
    HeaderLookup("BreadcrumbList", baseUrl, "url");
    JsonLdLookup(baseUrl, "BreadcrumbList", data, "itemListElement");
  }

  function Min(a: int, b: int): int
  {
    if a <= b then a else b
  }

  /** The crumb for segment `j`, as written: position `j + 1`, linking to the first `j + 2` segments (clamped to the path). */
  function SegmentCrumb(baseUrl: string, path: seq<string>, j: nat): Crumb
    requires j < |path|
  {
    Crumb(j + 1, Capitalize(path[j]), baseUrl + "/" + Join(path[..Min(j + 2, |path|)], "/"))
  }

  /** The crumbs `generateBreadcrumbSchema` maps the path segments to, in order. */
  function SegmentCrumbs(baseUrl: string, path: seq<string>): seq<Crumb>
  {
    seq(|path|, j requires 0 <= j < |path| => SegmentCrumb(baseUrl, path, j))
  }

  function HomeCrumb(baseUrl: string): Crumb
  {
    Crumb(1, "Home", baseUrl)
  }

  /** The item list of `generateBreadcrumbSchema(path)`, as written. */
  function BreadcrumbCrumbs(baseUrl: string, path: seq<string>): (cs: seq<Crumb>)
    ensures |cs| == |path| + 1 && cs[0] == HomeCrumb(baseUrl)
  {
    [HomeCrumb(baseUrl)] + SegmentCrumbs(baseUrl, path)
  }

  /** `generateBreadcrumbSchema(path)`: a breadcrumb list without a `url` field. */
  function BreadcrumbSchema(baseUrl: string, path: seq<string>): seq<Field>
  {
    [Field("@context", JString(SchemaContext)), Field("@type", JString("BreadcrumbList")),
     Field("itemListElement", CrumbsJson(BreadcrumbCrumbs(baseUrl, path)))]
  }

  /**
   * As written, the first segment shares position 1 with Home, whatever
   * the path's length. A single segment links to itself; with two or more
   * segments, the first links to the first two and the last two crumbs both
   * link to the full path (for `["blog", "post"]` both link to `/blog/post`).
   */
  lemma BreadcrumbQuirks(baseUrl: string, path: seq<string>)
    requires |path| >= 1
    ensures var cs := BreadcrumbCrumbs(baseUrl, path);
      cs[1].position == cs[0].position == 1
    ensures |path| == 1 ==> BreadcrumbCrumbs(baseUrl, path)[1].item == baseUrl + "/" + path[0]
    ensures |path| >= 2 ==> var cs := BreadcrumbCrumbs(baseUrl, path);
      cs[1].item == baseUrl + "/" + (path[0] + "/" + path[1])
      && cs[|path| - 1].item == cs[|path|].item == baseUrl + "/" + Join(path, "/")
  {
    FirstSegmentSharesHomePosition(baseUrl, path);
    if |path| == 1 {
      SingleSegmentLinksItself(baseUrl, path);
    } else {
      FirstCrumbAfterHome(baseUrl, path);
      LastTwoCrumbsLinkWholePath(baseUrl, path);
    }
  }

  /** As written, the first segment's crumb has Home's position 1, for any non-empty path. */
  lemma FirstSegmentSharesHomePosition(baseUrl: string, path: seq<string>)
    requires |path| >= 1
    ensures var cs := BreadcrumbCrumbs(baseUrl, path);
      cs[1].position == cs[0].position == 1
  {
    CrumbOfSegment(baseUrl, path, 0);
  }

  /** A single segment's crumb links to that segment. */
  lemma SingleSegmentLinksItself(baseUrl: string, path: seq<string>)
    requires |path| == 1
    ensures BreadcrumbCrumbs(baseUrl, path)[1].item == baseUrl + "/" + path[0]
  {
    CrumbOfSegment(baseUrl, path, 0);
    ClampedSegmentLinksAll(baseUrl, path, 0);
  }

  /** As written, the crumbs of the last two segments both link to the whole path. */
  lemma LastTwoCrumbsLinkWholePath(baseUrl: string, path: seq<string>)
    requires |path| >= 2
    ensures var cs := BreadcrumbCrumbs(baseUrl, path);
      cs[|path| - 1].item == cs[|path|].item == baseUrl + "/" + Join(path, "/")
  {
    CrumbLinksWholePath(baseUrl, path, |path| - 1);
    CrumbLinksWholePath(baseUrl, path, |path|);
  }

  /** As written, the first segment's crumb has Home's position and links to two segments. */
  lemma FirstCrumbAfterHome(baseUrl: string, path: seq<string>)
    requires |path| >= 2
    ensures var c := BreadcrumbCrumbs(baseUrl, path)[1];
      c.position == 1 && c.item == baseUrl + "/" + (path[0] + "/" + path[1])
  {
    CrumbOfSegment(baseUrl, path, 0);
    FirstSegmentLinksTwo(baseUrl, path);
  }

  /** As written, crumb `k` of the last two links to the whole path. */
  lemma CrumbLinksWholePath(baseUrl: string, path: seq<string>, k: nat)
    requires 2 <= |path| <= k + 1 && k <= |path|
    ensures BreadcrumbCrumbs(baseUrl, path)[k].item == baseUrl + "/" + Join(path, "/")
  {
    CrumbOfSegment(baseUrl, path, k - 1);
    ClampedSegmentLinksAll(baseUrl, path, k - 1);
  }

  /** The crumb after Home's for segment `j` is that segment's crumb. */
  lemma CrumbOfSegment(baseUrl: string, path: seq<string>, j: nat)
    requires j < |path|
    ensures BreadcrumbCrumbs(baseUrl, path)[j + 1] == SegmentCrumb(baseUrl, path, j)
  {
    assert BreadcrumbCrumbs(baseUrl, path)[j + 1] == SegmentCrumbs(baseUrl, path)[j];
  }

  /** As written, the first segment's crumb links to the first two segments. */
  lemma FirstSegmentLinksTwo(baseUrl: string, path: seq<string>)
    requires |path| >= 2
    ensures SegmentCrumb(baseUrl, path, 0).item == baseUrl + "/" + (path[0] + "/" + path[1])
  {
    assert path[..2] == [path[0], path[1]];
    JoinPair(path[0], path[1], "/");
  }

  /** As written, the crumbs of the last two segments both link to the whole path. */
  lemma ClampedSegmentLinksAll(baseUrl: string, path: seq<string>, j: nat)
    requires j < |path| <= j + 2
    ensures SegmentCrumb(baseUrl, path, j).item == baseUrl + "/" + Join(path, "/")
  {
    assert Min(j + 2, |path|) == |path|;
    assert path[..|path|] == path;
  }

  lemma JoinPair(a: string, b: string, sep: string)
    ensures Join([a, b], sep) == a + sep + b
  {
    assert [a, b][1..] == [b];
  }

  /** The evidently intended crumb for segment `j`: position `j + 2`, linking to the first `j + 1` segments. */
  function IntendedSegmentCrumb(baseUrl: string, path: seq<string>, j: nat): Crumb
    requires j < |path|
  {
    Crumb(j + 2, Capitalize(path[j]), baseUrl + "/" + Join(path[..j + 1], "/"))
  }

  /** The evidently intended crumbs for the path segments, in order. */
  function IntendedSegmentCrumbs(baseUrl: string, path: seq<string>): seq<Crumb>
  {
    seq(|path|, j requires 0 <= j < |path| => IntendedSegmentCrumb(baseUrl, path, j))
  }

  function IntendedBreadcrumbCrumbs(baseUrl: string, path: seq<string>): seq<Crumb>
  {
    [HomeCrumb(baseUrl)] + IntendedSegmentCrumbs(baseUrl, path)
  }

  /** The corrected breadcrumb list, with the same fields as the original. */
  function IntendedBreadcrumbSchema(baseUrl: string, path: seq<string>): seq<Field>
  {
    [Field("@context", JString(SchemaContext)), Field("@type", JString("BreadcrumbList")),
     Field("itemListElement", CrumbsJson(IntendedBreadcrumbCrumbs(baseUrl, path)))]
  }

  /**
   * The corrected list is a proper trail: Home first at position 1,
   * positions counting up by one, each crumb linking to its parent's URL
   * extended by its own segment, named after that segment.
   */
  lemma IntendedBreadcrumbTrail(baseUrl: string, path: seq<string>)
    ensures var cs := IntendedBreadcrumbCrumbs(baseUrl, path);
      |cs| == |path| + 1 && cs[0] == HomeCrumb(baseUrl)
      && (forall k :: 0 <= k < |cs| ==> cs[k].position == k + 1)
      && (forall k :: 0 <= k < |path| ==>
            cs[k + 1].item == cs[k].item + "/" + path[k] && cs[k + 1].name == Capitalize(path[k]))
  {
    var cs := IntendedBreadcrumbCrumbs(baseUrl, path);
    forall k | 0 <= k < |path|
      ensures cs[k + 1].item == cs[k].item + "/" + path[k]
    {
      IntendedItemExtends(baseUrl, path, k);
    }
  }

  /** Each intended crumb links to its predecessor's URL extended by its own segment. */
  lemma IntendedItemExtends(baseUrl: string, path: seq<string>, k: nat)
    requires k < |path|
    ensures var cs := IntendedBreadcrumbCrumbs(baseUrl, path);
      cs[k + 1].item == cs[k].item + "/" + path[k]
  {
    var cs := IntendedBreadcrumbCrumbs(baseUrl, path);
    var seg := IntendedSegmentCrumbs(baseUrl, path);
    assert cs[k + 1] == seg[k] == IntendedSegmentCrumb(baseUrl, path, k);
    if k == 0 {
      FirstSegmentItem(baseUrl, path);
    } else {
      assert cs[k] == seg[k - 1] == IntendedSegmentCrumb(baseUrl, path, k - 1);
      SegmentItemChain(baseUrl, path, k);
    }
  }

  lemma FirstSegmentItem(baseUrl: string, path: seq<string>)
    requires |path| > 0
    ensures IntendedSegmentCrumb(baseUrl, path, 0).item == baseUrl + "/" + path[0]
  {
    assert path[..1] == [path[0]];
  }

  lemma SegmentItemChain(baseUrl: string, path: seq<string>, k: nat)
    requires 0 < k < |path|
    ensures IntendedSegmentCrumb(baseUrl, path, k).item
      == IntendedSegmentCrumb(baseUrl, path, k - 1).item + "/" + path[k]
  {
    var a := path[..k];
    assert path[..k + 1] == a + [path[k]];
    JoinSnoc(a, path[k], "/");
    var j := Join(a, "/");
    assert baseUrl + "/" + (j + "/" + path[k]) == (baseUrl + "/" + j) + "/" + path[k];
  }

  // ---------------------------------------------------------------------
  // Page metadata
  // ---------------------------------------------------------------------

  const BaseKeywords: seq<string> := [
    "AI audit tool", "website audit", "application audit", "SEO analysis",
    "accessibility checker", "performance audit", "web optimization",
    "Pagesense", "automated audit", "usability audit"
  ]

  predicate Distinct(xs: seq<string>)
  {
    forall i, j :: 0 <= i < j < |xs| ==> xs[i] != xs[j]
  }

  /** `[...new Set(xs)]`: each value once, in order of first occurrence. */
  function Dedup(xs: seq<string>): (r: seq<string>)
    ensures Distinct(r)
    ensures forall x :: x in r <==> x in xs
    ensures |r| <= |xs|
  {
    if |xs| == 0 then []
    else
      var p := Dedup(xs[..|xs| - 1]);
      assert xs == xs[..|xs| - 1] + [xs[|xs| - 1]];
      if xs[|xs| - 1] in p then p else p + [xs[|xs| - 1]]
  }

  /** Appending values never reorders or drops what was already kept. */
  lemma {:induction false} DedupPrefix(a: seq<string>, b: seq<string>)
    ensures Dedup(a) <= Dedup(a + b)
    decreases |b|
  {
    if |b| == 0 {
      assert a + b == a;
    } else {
      var b' := b[..|b| - 1];
      assert (a + b)[..|a + b| - 1] == a + b';
      DedupPrefix(a, b');
    }
  }

  /** A list without repeats is kept as it is. */
  lemma {:induction false} DedupDistinct(xs: seq<string>)
    requires Distinct(xs)
    ensures Dedup(xs) == xs
    decreases |xs|
  {
    if |xs| > 0 {
      var p := xs[..|xs| - 1];
      assert Distinct(p);
      DedupDistinct(p);
      assert xs == p + [xs[|xs| - 1]];
    }
  }

  /**
   * The page's keyword list: every base keyword first, in order, then the
   * page keywords not already present, each once, with none dropped.
   */
  function Keywords(page: seq<string>): (r: seq<string>)
    ensures BaseKeywords <= r
    ensures Distinct(r)
    ensures forall x :: x in r <==> x in BaseKeywords || x in page
  {
    DedupPrefix(BaseKeywords, page);
    DedupDistinct(BaseKeywords);
    Dedup(BaseKeywords + page)
  }

  datatype SeoProps = SeoProps(
    title: string,
    description: string,
    path: string,
    keywords: Option<seq<string>>,
    locale: Option<string>,
    alternateLanguages: Option<map<string, string>>)

  datatype Image = Image(url: string, width: int, height: int, alt: string)

  datatype OpenGraph = OpenGraph(
    title: string, description: string, url: string, siteName: string,
    locale: string, kind: string, images: seq<Image>)

  datatype Twitter = Twitter(card: string, title: string, description: string, images: seq<string>)

  datatype Robots = Robots(index: bool, follow: bool, googleBotIndex: bool, googleBotFollow: bool)

  datatype Metadata = Metadata(
    titleDefault: string,
    titleTemplate: string,
    description: string,
    keywords: seq<string>,
    metadataBase: string,
    canonical: string,
    languages: map<string, string>,
    openGraph: OpenGraph,
    twitter: Twitter,
    robots: Robots)

  const TitleTemplate: string := "%s | Pagesense"
  const ShareImage: string := "/WOB-Big.png"

  /** How a child page's title fills the template: its first `%s` is replaced. */
  function ApplyTemplate(template: string, title: string): string
  {
    ReplaceFirst(template, "%s", title)
  }

  /**
   * `getMetadata(props)` with the base URL resolved. Missing optional
   * props take their defaults: no page keywords, locale "en", no alternate
   * languages.
   */
  function GetMetadata(props: SeoProps, baseUrl: string): (m: Metadata)
    ensures m.canonical == baseUrl + props.path && m.openGraph.url == m.canonical
    ensures m.titleDefault == props.title + " | " + SiteName
    ensures m.keywords == Keywords(if props.keywords.Some? then props.keywords.value else [])
    ensures m.openGraph.locale == if props.locale.Some? then props.locale.value else "en"
    ensures m.languages == if props.alternateLanguages.Some? then props.alternateLanguages.value else map[]
    ensures m.openGraph.title == m.twitter.title == props.title
    ensures m.description == m.openGraph.description == m.twitter.description == props.description
    ensures m.robots == Robots(true, true, true, true)
  {
    var keywords := if props.keywords.Some? then props.keywords.value else [];
    var locale := if props.locale.Some? then props.locale.value else "en";
    var languages := if props.alternateLanguages.Some? then props.alternateLanguages.value else map[];
    var fullUrl := baseUrl + props.path;
    Metadata(
      props.title + " | Pagesense",
      TitleTemplate,
      props.description,
      Keywords(keywords),
      baseUrl,
      fullUrl,
      languages,
      OpenGraph(props.title, props.description, fullUrl, SiteName, locale, "website",
                [Image(ShareImage, 1200, 630, "Pagesense AI Audit Tool")]),
      Twitter("summary_large_image", props.title, props.description, [ShareImage]),
      Robots(true, true, true, true))
  }

  /** A page's own title put through the template gives exactly its default title. */
  lemma TemplateMatchesDefault(props: SeoProps, baseUrl: string)
    ensures var m := GetMetadata(props, baseUrl);
      ApplyTemplate(m.titleTemplate, props.title) == m.titleDefault
  {
    assert TitleTemplate[..2] == "%s";
    FirstOccurrence(TitleTemplate, "%s", 0);
    assert TitleTemplate[2..] == " | Pagesense";
  }
}
