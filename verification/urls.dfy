/**
 * The display domain derived from an audited URL: the parsed hostname when
 * the URL parses, otherwise a best-effort fallback that removes the first
 * `http://` or `https://` (wherever it appears) and keeps the text before
 * the first `/`. The same scheme removal also feeds the client's PDF file
 * name.
 */
module Urls {
  import opened Wrappers
  import opened Text

  /** The regular expression `/https?:\/\//` matches at index `i`. */
  predicate SchemeAt(s: string, i: int)
  {
    OccursAt(s, "http://", i) || OccursAt(s, "https://", i)
  }

  /** The length of the match at `i` (the two alternatives never both match at one index). */
  function SchemeLength(s: string, i: int): nat
    requires SchemeAt(s, i)
  {
    if OccursAt(s, "https://", i) then 8 else 7
  }

  /** `i` is the leftmost match, the one a non-global `replace` rewrites. */
  predicate LeftmostScheme(s: string, i: int)
  {
    SchemeAt(s, i) && forall j :: 0 <= j < i ==> !SchemeAt(s, j)
  }

  function FirstSchemeFrom(s: string, k: nat): (r: Option<nat>)
    ensures r.Some? ==> k <= r.value && SchemeAt(s, r.value)
    ensures r.Some? ==> forall j :: k <= j < r.value ==> !SchemeAt(s, j)
    ensures r.None? ==> forall j :: k <= j ==> !SchemeAt(s, j)
    decreases |s| - k
  {
    if k >= |s| then None
    else if SchemeAt(s, k) then Some(k)
    else FirstSchemeFrom(s, k + 1)
  }

  /** `s.replace(/https?:\/\//, "")`: only the leftmost scheme is removed, anchored nowhere. */
  function StripScheme(s: string): (r: string)
    ensures (forall i :: !SchemeAt(s, i)) ==> r == s
    ensures |s| - 8 <= |r| <= |s|
  {
    match FirstSchemeFrom(s, 0)
    case None => s
    case Some(i) => s[..i] + s[i + SchemeLength(s, i)..]
  }

  /** When a scheme occurs, exactly the leftmost one is cut out and the text around it kept. */
  lemma StripLeftmost(s: string, i: nat)
    requires LeftmostScheme(s, i)
    ensures StripScheme(s) == s[..i] + s[i + SchemeLength(s, i)..]
  {
    var f := FirstSchemeFrom(s, 0);
    assert f.Some?;
    assert f.value <= i && SchemeAt(s, f.value);
  }

  /** A text that starts with a scheme loses exactly that scheme. */
  lemma StripLeadingScheme(scheme: string, rest: string)
    requires scheme == "http://" || scheme == "https://"
    ensures StripScheme(scheme + rest) == rest
  {
    var s := scheme + rest;
    assert s[..|scheme|] == scheme;
    assert LeftmostScheme(s, 0);
    if |s| >= 8 {
      assert s[..8][4] == s[4] == scheme[4];
    }
    assert SchemeLength(s, 0) == |scheme|;
    StripLeftmost(s, 0);
    assert s[..0] + s[|scheme|..] == rest;
  }

  /** The fallback branch: `url.replace(/https?:\/\//, "").split("/")[0]`. It never fails. */
  function FallbackDomain(url: string): (r: string)
    ensures '/' !in r
    ensures r <= StripScheme(url)
    ensures |r| < |StripScheme(url)| ==> StripScheme(url)[|r|] == '/'
  {
    BeforeFirst(StripScheme(url), '/')
  }

  /**
   * The display domain: `new URL(url).hostname`, abstracted as `hostname`
   * (None when the constructor throws), else the fallback.
   */
  function DomainName(url: string, hostname: string -> Option<string>): (r: string)
    ensures hostname(url).Some? ==> r == hostname(url).value
    ensures hostname(url).None? ==> '/' !in r && r <= StripScheme(url)
  {
    match hostname(url)
    case Some(h) => h
    case None => FallbackDomain(url)
  }

  /** A text without a slash contains no scheme: both alternatives have one at offset 6. */
  lemma NoSchemeWithoutSlash(s: string)
    requires '/' !in s
    ensures forall i :: !SchemeAt(s, i)
  {
    forall i | 0 <= i
      ensures !SchemeAt(s, i)
    {
      if i + 7 <= |s| {
        assert s[i..i + 7][6] == s[i + 6];
      }
      if i + 8 <= |s| {
        assert s[i..i + 8][6] == s[i + 6];
      }
    }
  }

  /** Any text without a slash (which rules out a scheme) is kept whole by the fallback. */
  lemma FallbackKeepsSlashFreeText(s: string)
    requires '/' !in s
    ensures FallbackDomain(s) == s
  {
    NoSchemeWithoutSlash(s);
    BeforeFirstIs(s, '/', |s|);
  }

  /** For a URL that begins with a scheme, the fallback yields the host part before the path. */
  lemma FallbackOfSchemeUrl(scheme: string, host: string, path: string)
    requires scheme == "http://" || scheme == "https://"
    requires '/' !in host
    ensures FallbackDomain(scheme + host + "/" + path) == host
  {
    var t := host + "/" + path;
    assert scheme + host + "/" + path == scheme + t;
    StripLeadingScheme(scheme, t);
    assert t[..|host|] == host;
    BeforeFirstIs(t, '/', |host|);
  }
}
