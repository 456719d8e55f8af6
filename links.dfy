/**
 * Link classification, version prefixing and the verified, conditional
 * rewrite of one href (ai_updater.py, `prepend_url` and
 * `ai_link_verification`).
 */
module Links {
  import opened Options

  /** An href that the script leaves alone: it starts with one of the two schemes. */
  predicate IsAbsolute(href: string) {
    "https://" <= href || "http://" <= href
  }

  /** The prefix put in front of a relative href: `{base_url}versions/{version}`. */
  function VersionPrefix(baseUrl: string, version: string): string {
    baseUrl + "versions/" + version
  }

  /**
   * The inverse of prefixing: the rest of `url` after the version prefix,
   * or None when `url` does not carry that prefix.
   */
  function StripVersionPrefix(url: string, baseUrl: string, version: string): (r: Option<string>)
    ensures r.Some? <==> VersionPrefix(baseUrl, version) <= url
    ensures r.Some? ==> VersionPrefix(baseUrl, version) + r.value == url
  {
    var p := VersionPrefix(baseUrl, version);
    if p <= url then
      assert p + url[|p|..] == url;
      Some(url[|p|..])
    else None
  }

  /**
   * `prepend_url`: absolute hrefs pass through; every other href is put
   * under the version's directory of the site.
   */
  function PrependUrl(href: string, baseUrl: string, version: string): (r: string)
    ensures IsAbsolute(href) ==> r == href
    ensures !IsAbsolute(href) ==> StripVersionPrefix(r, baseUrl, version) == Some(href)
  {
    if IsAbsolute(href) then href
    else
      var r := VersionPrefix(baseUrl, version) + href;
      assert r[|VersionPrefix(baseUrl, version)|..] == href;
      r
  }

  /**
   * A relative href is rewritten to exactly base URL, "versions/", version,
   * href: the result starts with the base URL and ends with the href.
   */
  lemma RelativeHrefFormula(href: string, baseUrl: string, version: string)
    requires !IsAbsolute(href)
    ensures PrependUrl(href, baseUrl, version) == baseUrl + "versions/" + version + href
    ensures baseUrl <= PrependUrl(href, baseUrl, version)
    ensures var r := PrependUrl(href, baseUrl, version); |href| <= |r| && r[|r| - |href|..] == href
  {
    var r := PrependUrl(href, baseUrl, version);
    var p := VersionPrefix(baseUrl, version);
    var s := StripVersionPrefix(r, baseUrl, version);
    assert s == Some(href);
    assert r == p + href;
    assert r[|r| - |href|..] == href;
    assert r[..|baseUrl|] == baseUrl;
  }

  /**
   * A scheme that `b` does not start with is not completed by appending text
   * that starts with a character the scheme does not contain.
   */
  lemma SchemeNotCompleted(scheme: string, b: string, rest: string)
    requires !(scheme <= b)
    requires |rest| > 0 && rest[0] !in scheme
    ensures !(scheme <= b + rest)
  {
    if |b| < |scheme| {
      assert (b + rest)[|b|] == rest[0];
      assert scheme[|b|] in scheme;
    } else {
      assert (b + rest)[..|scheme|] == b[..|scheme|];
    }
  }

  /**
   * The classification of the rewritten URL: it is absolute exactly when the
   * href or the base URL was. The inserted "versions/" can never complete a
   * scheme begun by a short base URL, because no scheme contains a 'v'.
   */
  lemma PrependUrlAbsoluteIff(href: string, baseUrl: string, version: string)
    ensures IsAbsolute(PrependUrl(href, baseUrl, version)) <==> IsAbsolute(href) || IsAbsolute(baseUrl)
  {
    if !IsAbsolute(href) {
      var rest := "versions/" + version + href;
      var r := PrependUrl(href, baseUrl, version);
      assert r == baseUrl + rest;
      assert rest[0] == 'v';
      if IsAbsolute(baseUrl) {
        assert r[..|baseUrl|] == baseUrl;
      } else {
        SchemeNotCompleted("https://", baseUrl, rest);
        SchemeNotCompleted("http://", baseUrl, rest);
      }
    }
  }

  /**
   * Prefixing is not idempotent: with a relative base URL, rewriting an
   * already rewritten relative href prefixes it a second time. This is why
   * every version must start again from the pristine template.
   */
  lemma PrependUrlTwiceDiffers(href: string, baseUrl: string, v1: string, v2: string)
    requires !IsAbsolute(href) && !IsAbsolute(baseUrl)
    ensures PrependUrl(PrependUrl(href, baseUrl, v1), baseUrl, v2) != PrependUrl(href, baseUrl, v1)
  {
    var once := PrependUrl(href, baseUrl, v1);
    PrependUrlAbsoluteIff(href, baseUrl, v1);
    RelativeHrefFormula(href, baseUrl, v1);
    RelativeHrefFormula(once, baseUrl, v2);
    assert |PrependUrl(once, baseUrl, v2)| >= |once| + 9;
  }

  /** What a HEAD request for a URL comes back with. */
  datatype HeadOutcome =
    | Status(code: int)   // the response's status code, after redirects
    | RequestFailed       // a request exception: timeout, DNS, refused, malformed URL

  /** `ai_link_verification`: a link is good only on status 200; exceptions count as failure. */
  function LinkVerified(outcome: HeadOutcome): (ok: bool)
    ensures ok <==> outcome.Status? && outcome.code == 200
  {
    match outcome
    case Status(code) => code == 200
    case RequestFailed => false
  }

  /**
   * The outcome for one link (the title, a nav link or the switcher): an
   * absolute href is never changed; a relative one becomes the
   * version-prefixed URL exactly when that URL verifies, and is kept
   * otherwise.
   */
  function RewriteHref(href: string, baseUrl: string, version: string, probe: string -> HeadOutcome): (r: string)
    ensures IsAbsolute(href) ==> r == href
    ensures !IsAbsolute(href) && LinkVerified(probe(baseUrl + "versions/" + version + href))
            ==> r == baseUrl + "versions/" + version + href
    ensures !IsAbsolute(href) && !LinkVerified(probe(baseUrl + "versions/" + version + href))
            ==> r == href
  {
    var updated := PrependUrl(href, baseUrl, version);
    assert !IsAbsolute(href) ==> updated == baseUrl + "versions/" + version + href by {
      if !IsAbsolute(href) {
        RelativeHrefFormula(href, baseUrl, version);
      }
    }
    if LinkVerified(probe(updated)) then updated else href
  }

  /**
   * The nav links, processed one by one: as many links come out as go in,
   * and each one's outcome is that of its own href and its own check.
   */
  function RewriteAll(hrefs: seq<string>, baseUrl: string, version: string, probe: string -> HeadOutcome): (r: seq<string>)
    ensures |r| == |hrefs|
    ensures forall i :: 0 <= i < |hrefs| ==> r[i] == RewriteHref(hrefs[i], baseUrl, version, probe)
  {
    if hrefs == [] then []
    else [RewriteHref(hrefs[0], baseUrl, version, probe)] + RewriteAll(hrefs[1..], baseUrl, version, probe)
  }

  /**
   * Fault isolation: a check that fails on one URL changes nothing about the
   * other links. Two probes that agree on the URL of link `i` give link `i`
   * the same outcome, whatever they say about the rest.
   */
  lemma NavOutcomeIsLocal(hrefs: seq<string>, baseUrl: string, version: string,
                          p1: string -> HeadOutcome, p2: string -> HeadOutcome, i: nat)
    requires i < |hrefs|
    requires LinkVerified(p1(PrependUrl(hrefs[i], baseUrl, version))) == LinkVerified(p2(PrependUrl(hrefs[i], baseUrl, version)))
    ensures RewriteAll(hrefs, baseUrl, version, p1)[i] == RewriteAll(hrefs, baseUrl, version, p2)[i]
  {
  }
}
