/**
 * `updateVersionHTML` in ai_updater.py: for every known version, and for the
 * synthetic "latest", re-read the pristine template, rewrite its title, nav
 * and version-switcher links for that version, label the switcher with the
 * version and write the result to the version's two output files.
 *
 * The HTML document is abstracted to the parts the script looks up. Parsing
 * and serialising are the identity on that abstraction; file reads are
 * inputs, file writes are the returned trace of (path, content) pairs.
 */
module Updater {
  import opened Options
  import opened Links

  /** The default base URL of the script (`BASE_URL`); the command line cannot change it. */
  const DefaultBaseUrl: string := "/"

  /**
   * An example: with the default base URL, the relative
   * title href "/docs/intro" of version "1.0.0" is prefixed to
   * "/versions/1.0.0/docs/intro".
   */
  lemma DefaultBaseUrlExample()
    ensures PrependUrl("/docs/intro", DefaultBaseUrl, "1.0.0") == "/versions/1.0.0/docs/intro"
  {
    var href := "/docs/intro";
    assert href[0] == '/';
    assert !IsAbsolute(href);
    RelativeHrefFormula(href, DefaultBaseUrl, "1.0.0");
  }

  /**
   * With the default base URL every prefixed URL starts with "/" and has no
   * scheme. For a verifier that fails on every such URL (a HEAD request
   * without a scheme raises before any network access), no href is ever
   * rewritten.
   */
  lemma DefaultBaseUrlNeverRewrites(href: string, version: string, probe: string -> HeadOutcome)
    requires forall u :: "/" <= u ==> probe(u) == RequestFailed
    ensures RewriteHref(href, DefaultBaseUrl, version, probe) == href
  {
    if !IsAbsolute(href) {
      RelativeHrefFormula(href, DefaultBaseUrl, version);
    }
  }

  /**
   * The consequence for a whole page: with the default base URL and such a
   * verifier, a version's output is the template with only the switcher's
   * label changed.
   */
  lemma DefaultBaseUrlOnlyRelabels(page: Page, version: string, probe: string -> HeadOutcome)
    requires forall u :: "/" <= u ==> probe(u) == RequestFailed
    ensures RenderVersion(page, DefaultBaseUrl, version, probe) == page.(switcherLabel := version)
  {
    DefaultBaseUrlNeverRewrites(page.titleHref, version, probe);
    DefaultBaseUrlNeverRewrites(page.switcherHref, version, probe);
    var nav := RewriteAll(page.navHrefs, DefaultBaseUrl, version, probe);
    forall i | 0 <= i < |page.navHrefs| ensures nav[i] == page.navHrefs[i] {
      DefaultBaseUrlNeverRewrites(page.navHrefs[i], version, probe);
    }
  }

  /**
   * With an absolute base URL, as a caller of `updateVersionHTML` may pass,
   * the URL checked for a relative href is absolute, so a HEAD request can
   * reach it, and the href is rewritten exactly when that URL answers 200.
   */
  lemma AbsoluteBaseUrlRewrites(href: string, baseUrl: string, version: string, probe: string -> HeadOutcome)
    requires IsAbsolute(baseUrl) && !IsAbsolute(href)
    ensures IsAbsolute(PrependUrl(href, baseUrl, version))
    ensures RewriteHref(href, baseUrl, version, probe) == PrependUrl(href, baseUrl, version)
            <==> LinkVerified(probe(PrependUrl(href, baseUrl, version)))
  {
    PrependUrlAbsoluteIff(href, baseUrl, version);
    RelativeHrefFormula(href, baseUrl, version);
    assert |PrependUrl(href, baseUrl, version)| > |href|;
  }

  /** An `<a>` element: its href attribute, if any, and the text of an `<h3>` inside it, if any. */
  datatype Anchor = Anchor(href: Option<string>, heading: Option<string>)

  /**
   * The template as the script's lookups see it:
   *   header   — the first anchor inside `<header>` (None: no header, or no anchor in it);
   *   nav      — every anchor inside `<nav>`, in document order (None: no nav);
   *   switcher — the first anchor after `<h2 class="headerTitleWithLogo">` (None: no such h2,
   *              or no anchor after it).
   */
  datatype Template = Template(header: Option<Anchor>, nav: Option<seq<Anchor>>, switcher: Option<Anchor>)

  /** The located links of one page, and the serialised form of a document. */
  datatype Page = Page(titleHref: string, navHrefs: seq<string>, switcherHref: string, switcherLabel: string)

  /** One file write: the path and the text written to it. */
  datatype Write = Write(path: string, content: Page)

  /** The hrefs of the nav anchors, or None if one of them has no href (a `KeyError`). */
  function NavHrefs(anchors: seq<Anchor>): (r: Option<seq<string>>)
    ensures r.Some? <==> forall i :: 0 <= i < |anchors| ==> anchors[i].href.Some?
    ensures r.Some? ==> |r.value| == |anchors|
    ensures r.Some? ==> forall i :: 0 <= i < |anchors| ==> r.value[i] == anchors[i].href.value
  {
    if anchors == [] then Some([])
    else if anchors[0].href.None? then None
    else match NavHrefs(anchors[1..])
      case None => None
      case Some(rest) => Some([anchors[0].href.value] + rest)
  }

  /** True when every lookup and attribute access the script makes on the template succeeds. */
  predicate WellFormed(t: Template) {
    && t.header.Some? && t.header.value.href.Some?
    && t.nav.Some? && (forall i :: 0 <= i < |t.nav.value| ==> t.nav.value[i].href.Some?)
    && t.switcher.Some? && t.switcher.value.href.Some? && t.switcher.value.heading.Some?
  }

  /**
   * The lookups of one iteration on a freshly parsed template: `find("header").find("a")`,
   * `find("nav").findAll("a")`, `find("h2", ...).find_next("a")`, each anchor's `href`
   * and the switcher's `find("h3")`. None stands for the exception a failed lookup raises.
   */
  function Locate(t: Template): (r: Option<Page>)
    ensures r.Some? <==> WellFormed(t)
    ensures r.Some? ==> && r.value.titleHref == t.header.value.href.value
                        && |r.value.navHrefs| == |t.nav.value|
                        && (forall i :: 0 <= i < |t.nav.value| ==> r.value.navHrefs[i] == t.nav.value[i].href.value)
                        && r.value.switcherHref == t.switcher.value.href.value
                        && r.value.switcherLabel == t.switcher.value.heading.value
  {
    if t.header.None? || t.header.value.href.None? then None
    else if t.nav.None? then None
    else match NavHrefs(t.nav.value)
      case None => None
      case Some(nav) =>
        if t.switcher.None? || t.switcher.value.href.None? || t.switcher.value.heading.None? then None
        else Some(Page(t.header.value.href.value, nav, t.switcher.value.href.value, t.switcher.value.heading.value))
  }

  /**
   * What one version's document looks like after its links are processed:
   * every link rewritten on its own check, and the switcher labelled `version`.
   */
  function RenderVersion(page: Page, baseUrl: string, version: string, probe: string -> HeadOutcome): Page {
    Page(RewriteHref(page.titleHref, baseUrl, version, probe),
         RewriteAll(page.navHrefs, baseUrl, version, probe),
         RewriteHref(page.switcherHref, baseUrl, version, probe),
         version)
  }

  /**
   * The promises about one version's output: the title and switcher hrefs
   * change to the prefixed URL only when it verifies, each nav link likewise
   * on its own check with their number preserved, and the switcher's label
   * is the version whatever its href's check said.
   */
  lemma RenderVersionSpec(page: Page, baseUrl: string, version: string, probe: string -> HeadOutcome)
    ensures RenderVersion(page, baseUrl, version, probe).switcherLabel == version
    ensures var u := PrependUrl(page.titleHref, baseUrl, version);
      RenderVersion(page, baseUrl, version, probe).titleHref == (if LinkVerified(probe(u)) then u else page.titleHref)
    ensures var u := PrependUrl(page.switcherHref, baseUrl, version);
      RenderVersion(page, baseUrl, version, probe).switcherHref == (if LinkVerified(probe(u)) then u else page.switcherHref)
    ensures |RenderVersion(page, baseUrl, version, probe).navHrefs| == |page.navHrefs|
    ensures forall i :: 0 <= i < |page.navHrefs| ==>
      var u := PrependUrl(page.navHrefs[i], baseUrl, version);
      RenderVersion(page, baseUrl, version, probe).navHrefs[i] == (if LinkVerified(probe(u)) then u else page.navHrefs[i])
  {
  }

  /** A parsed document: the links the script mutates in place. */
  class Document {
    var titleHref: string
    var navHrefs: seq<string>
    var switcherHref: string
    var switcherLabel: string

    /** `BeautifulSoup(html)`, after the lookups of `Locate`. */
    constructor Parse(page: Page)
      ensures Serialize() == page
    {
      titleHref := page.titleHref;
      navHrefs := page.navHrefs;
      switcherHref := page.switcherHref;
      switcherLabel := page.switcherLabel;
    }

    /** `str(soup)`. */
    function Serialize(): Page
      reads this
    {
      Page(titleHref, navHrefs, switcherHref, switcherLabel)
    }

    /** The title link: set its href to the prefixed URL if that URL verifies. */
    method RewriteTitle(baseUrl: string, version: string, probe: string -> HeadOutcome)
      modifies this`titleHref
      ensures titleHref == RewriteHref(old(titleHref), baseUrl, version, probe)
    {
      var updated := PrependUrl(titleHref, baseUrl, version);
      if LinkVerified(probe(updated)) {
        titleHref := updated;
      }
    }

    /** The nav links, one by one in document order, each on its own check. */
    method RewriteNav(baseUrl: string, version: string, probe: string -> HeadOutcome)
      modifies this`navHrefs
      ensures navHrefs == RewriteAll(old(navHrefs), baseUrl, version, probe)
    {
      var i := 0;
      while i < |navHrefs|
        invariant 0 <= i <= |navHrefs| == |old(navHrefs)|
        invariant forall k :: 0 <= k < i ==> navHrefs[k] == RewriteHref(old(navHrefs)[k], baseUrl, version, probe)
        invariant forall k :: i <= k < |navHrefs| ==> navHrefs[k] == old(navHrefs)[k]
      {
        var updated := PrependUrl(navHrefs[i], baseUrl, version);
        if LinkVerified(probe(updated)) {
          navHrefs := navHrefs[i := updated];
        }
        i := i + 1;
      }
    }

    /** The version-switcher link: its href on its check, its `<h3>` text always. */
    method RewriteSwitcher(baseUrl: string, version: string, probe: string -> HeadOutcome)
      modifies this`switcherHref, this`switcherLabel
      ensures switcherHref == RewriteHref(old(switcherHref), baseUrl, version, probe)
      ensures switcherLabel == version
    {
      var updated := PrependUrl(switcherHref, baseUrl, version);
      if LinkVerified(probe(updated)) {
        switcherHref := updated;
      }
      switcherLabel := version;
    }

    /** The body of one iteration of the version loop, up to serialisation. */
    method RewriteForVersion(baseUrl: string, version: string, probe: string -> HeadOutcome)
      modifies this
      ensures Serialize() == RenderVersion(old(Serialize()), baseUrl, version, probe)
    {
      RewriteTitle(baseUrl, version, probe);
      RewriteNav(baseUrl, version, probe);
      RewriteSwitcher(baseUrl, version, probe);
    }
  }

  /** `{base_path}/new-site/versions/{v}/versions.html` */
  function OutputPath(basePath: string, version: string): string {
    basePath + "/new-site/versions/" + version + "/versions.html"
  }

  /** `{base_path}/new-site/versions/{v}/en/versions.html` */
  function LocalizedOutputPath(basePath: string, version: string): string {
    basePath + "/new-site/versions/" + version + "/en/versions.html"
  }

  /** If `a + x + b == a + y + b` then `x == y`. */
  lemma CancelAround(a: string, x: string, y: string, b: string)
    requires a + x + b == a + y + b
    ensures x == y
  {
    assert |x| == |y|;
    forall i | 0 <= i < |x| ensures x[i] == y[i] {
      assert (a + x + b)[|a| + i] == x[i];
      assert (a + y + b)[|a| + i] == y[i];
    }
  }

  /** Distinct versions never share a main output path (and likewise for the "en" one). */
  lemma OutputPathInjective(basePath: string, v1: string, v2: string)
    ensures OutputPath(basePath, v1) == OutputPath(basePath, v2) ==> v1 == v2
    ensures LocalizedOutputPath(basePath, v1) == LocalizedOutputPath(basePath, v2) ==> v1 == v2
  {
    var a := basePath + "/new-site/versions/";
    if OutputPath(basePath, v1) == OutputPath(basePath, v2) {
      CancelAround(a, v1, v2, "/versions.html");
    }
    if LocalizedOutputPath(basePath, v1) == LocalizedOutputPath(basePath, v2) {
      CancelAround(a, v1, v2, "/en/versions.html");
    }
  }

  /**
   * A main output path and an "en" output path coincide only when the first
   * version is the second followed by "/en"; so for versions without a '/'
   * the two kinds of output never overwrite each other.
   */
  lemma OutputPathsDisjoint(basePath: string, v1: string, v2: string)
    ensures OutputPath(basePath, v1) == LocalizedOutputPath(basePath, v2) <==> v1 == v2 + "/en"
    ensures '/' !in v1 ==> OutputPath(basePath, v1) != LocalizedOutputPath(basePath, v2)
  {
    var a := basePath + "/new-site/versions/";
    assert LocalizedOutputPath(basePath, v2) == a + (v2 + "/en") + "/versions.html";
    assert OutputPath(basePath, v1) == a + v1 + "/versions.html";
    if OutputPath(basePath, v1) == LocalizedOutputPath(basePath, v2) {
      CancelAround(a, v1, v2 + "/en", "/versions.html");
      assert v1[|v2|] == '/';
    }
  }

  /** The two writes of one version: the same text to both of its paths. */
  function VersionWrites(basePath: string, baseUrl: string, page: Page, version: string,
                         probe: string -> HeadOutcome): seq<Write> {
    var text := RenderVersion(page, baseUrl, version, probe);
    [Write(OutputPath(basePath, version), text), Write(LocalizedOutputPath(basePath, version), text)]
  }

  /** All writes for a list of versions, in the order the loop makes them. */
  function AllWrites(basePath: string, baseUrl: string, page: Page, versions: seq<string>,
                     probe: string -> HeadOutcome): (r: seq<Write>)
    ensures |r| == 2 * |versions|
  {
    if versions == [] then []
    else
      var n := |versions| - 1;
      AllWrites(basePath, baseUrl, page, versions[..n], probe) + VersionWrites(basePath, baseUrl, page, versions[n], probe)
  }

  /**
   * For the k-th version, write 2k goes to its main path and write 2k+1 to
   * its "en" path, both with the page rendered from the template for that
   * version alone.
   */
  lemma {:induction false} AllWritesAt(basePath: string, baseUrl: string, page: Page, versions: seq<string>,
                                       probe: string -> HeadOutcome, k: nat)
    requires k < |versions|
    ensures var w := AllWrites(basePath, baseUrl, page, versions, probe);
            && w[2 * k] == Write(OutputPath(basePath, versions[k]), RenderVersion(page, baseUrl, versions[k], probe))
            && w[2 * k + 1] == Write(LocalizedOutputPath(basePath, versions[k]), RenderVersion(page, baseUrl, versions[k], probe))
  {
    var n := |versions| - 1;
    var earlier := AllWrites(basePath, baseUrl, page, versions[..n], probe);
    var last := VersionWrites(basePath, baseUrl, page, versions[n], probe);
    assert AllWrites(basePath, baseUrl, page, versions, probe) == earlier + last;
    if k < n {
      AllWritesAt(basePath, baseUrl, page, versions[..n], probe, k);
      assert versions[..n][k] == versions[k];
      assert (earlier + last)[2 * k] == earlier[2 * k];
      assert (earlier + last)[2 * k + 1] == earlier[2 * k + 1];
    } else {
      assert (earlier + last)[2 * k] == last[0];
      assert (earlier + last)[2 * k + 1] == last[1];
    }
  }

  /** Processing one more version appends exactly that version's two writes. */
  lemma AllWritesSnoc(basePath: string, baseUrl: string, page: Page, versions: seq<string>, version: string,
                      probe: string -> HeadOutcome)
    ensures AllWrites(basePath, baseUrl, page, versions + [version], probe)
            == AllWrites(basePath, baseUrl, page, versions, probe) + VersionWrites(basePath, baseUrl, page, version, probe)
  {
    assert (versions + [version])[..|versions|] == versions;
  }

  /**
   * A version's writes do not depend on which versions were processed before
   * it: each iteration starts again from the pristine template.
   */
  lemma IterationsIndependent(basePath: string, baseUrl: string, page: Page, before1: seq<string>,
                              before2: seq<string>, version: string, probe: string -> HeadOutcome)
    ensures var w1 := AllWrites(basePath, baseUrl, page, before1 + [version], probe);
            var w2 := AllWrites(basePath, baseUrl, page, before2 + [version], probe);
            w1[|w1| - 2..] == w2[|w2| - 2..]
  {
    AllWritesSnoc(basePath, baseUrl, page, before1, version, probe);
    AllWritesSnoc(basePath, baseUrl, page, before2, version, probe);
    var w1 := AllWrites(basePath, baseUrl, page, before1 + [version], probe);
    var w2 := AllWrites(basePath, baseUrl, page, before2 + [version], probe);
    assert w1[|w1| - 2..] == VersionWrites(basePath, baseUrl, page, version, probe);
    assert w2[|w2| - 2..] == VersionWrites(basePath, baseUrl, page, version, probe);
  }

  /**
   * Both files of a version receive the same text, and a version listed
   * twice is written twice with the same text.
   */
  lemma OutputsIdentical(basePath: string, baseUrl: string, page: Page, versions: seq<string>,
                         probe: string -> HeadOutcome, j: nat, k: nat)
    requires j < |versions| && k < |versions|
    ensures var w := AllWrites(basePath, baseUrl, page, versions, probe);
            w[2 * k].content == w[2 * k + 1].content
    ensures var w := AllWrites(basePath, baseUrl, page, versions, probe);
            versions[j] == versions[k] ==> w[2 * j] == w[2 * k] && w[2 * j + 1] == w[2 * k + 1]
  {
    AllWritesAt(basePath, baseUrl, page, versions, probe, j);
    AllWritesAt(basePath, baseUrl, page, versions, probe, k);
  }

  /** Some write in the trace goes to `path`. */
  predicate Written(writes: seq<Write>, path: string) {
    exists k :: 0 <= k < |writes| && writes[k].path == path
  }

  /** The path of write k: the main or the "en" path of version k / 2. */
  lemma WritePath(basePath: string, baseUrl: string, page: Page, versions: seq<string>,
                  probe: string -> HeadOutcome, k: nat)
    requires k < 2 * |versions|
    ensures var w := AllWrites(basePath, baseUrl, page, versions, probe);
            w[k].path == if k % 2 == 0 then OutputPath(basePath, versions[k / 2])
                         else LocalizedOutputPath(basePath, versions[k / 2])
  {
    var j := k / 2;
    AllWritesAt(basePath, baseUrl, page, versions, probe, j);
    assert k == 2 * j || k == 2 * j + 1;
  }

  /**
   * Version coverage of the main files: unless `v` is a listed version
   * followed by "/en" (whose "en" file lands on `v`'s main path), the main
   * file of `v` is written if and only if `v` is in the list.
   */
  lemma MainFileCoverage(basePath: string, baseUrl: string, page: Page, versions: seq<string>,
                         probe: string -> HeadOutcome, v: string)
    requires forall j :: 0 <= j < |versions| ==> v != versions[j] + "/en"
    ensures Written(AllWrites(basePath, baseUrl, page, versions, probe), OutputPath(basePath, v)) <==> v in versions
  {
    var w := AllWrites(basePath, baseUrl, page, versions, probe);
    if v in versions {
      var j :| 0 <= j < |versions| && versions[j] == v;
      AllWritesAt(basePath, baseUrl, page, versions, probe, j);
      assert w[2 * j].path == OutputPath(basePath, v);
    }
    forall k | 0 <= k < |w| && w[k].path == OutputPath(basePath, v)
      ensures v in versions
    {
      var j := k / 2;
      WritePath(basePath, baseUrl, page, versions, probe, k);
      if k % 2 == 0 {
        OutputPathInjective(basePath, versions[j], v);
        assert versions[j] == v;
      } else {
        OutputPathsDisjoint(basePath, v, versions[j]);
        assert false;
      }
    }
  }

  /**
   * Version coverage of the "en" files: unless `v` followed by "/en" is
   * itself listed (its main file lands on `v`'s "en" path), the "en" file of
   * `v` is written if and only if `v` is in the list.
   */
  lemma LocalizedFileCoverage(basePath: string, baseUrl: string, page: Page, versions: seq<string>,
                              probe: string -> HeadOutcome, v: string)
    requires v + "/en" !in versions
    ensures Written(AllWrites(basePath, baseUrl, page, versions, probe), LocalizedOutputPath(basePath, v)) <==> v in versions
  {
    var w := AllWrites(basePath, baseUrl, page, versions, probe);
    if v in versions {
      var j :| 0 <= j < |versions| && versions[j] == v;
      AllWritesAt(basePath, baseUrl, page, versions, probe, j);
      assert w[2 * j + 1].path == LocalizedOutputPath(basePath, v);
    }
    forall k | 0 <= k < |w| && w[k].path == LocalizedOutputPath(basePath, v)
      ensures v in versions
    {
      var j := k / 2;
      WritePath(basePath, baseUrl, page, versions, probe, k);
      if k % 2 == 0 {
        OutputPathsDisjoint(basePath, versions[j], v);
        assert false;
      } else {
        OutputPathInjective(basePath, versions[j], v);
        assert versions[j] == v;
      }
    }
  }

  /**
   * One iteration of the version loop: parse the template's located page
   * afresh, rewrite its links for `version`, and write the serialised text to
   * the version's two paths.
   */
  method WriteVersion(basePath: string, baseUrl: string, page: Page, version: string,
                      probe: string -> HeadOutcome)
    returns (out: seq<Write>)
    ensures out == VersionWrites(basePath, baseUrl, page, version, probe)
  {
    var doc := new Document.Parse(page);
    doc.RewriteForVersion(baseUrl, version, probe);
    out := [Write(OutputPath(basePath, version), doc.Serialize())];
    out := out + [Write(LocalizedOutputPath(basePath, version), doc.Serialize())];
  }

  /**
   * `updateVersionHTML(base_path, base_url)`. `loaded` is the parsed version
   * list (None: the file is unreadable or not a JSON list), `html` the parsed
   * template (None: unreadable). `completed` is false when an exception
   * reached the error-handling wrapper; `writes` are the file writes made.
   */
  method UpdateVersionHtml(basePath: string, baseUrl: string, loaded: Option<seq<string>>,
                           html: Option<Template>, probe: string -> HeadOutcome)
    returns (writes: seq<Write>, completed: bool)
    ensures completed <==> loaded.Some? && html.Some? && WellFormed(html.value)
    ensures !completed ==> writes == []
    ensures completed ==> writes == AllWrites(basePath, baseUrl, Locate(html.value).value, loaded.value + ["latest"], probe)
  {
    writes := [];
    if loaded.None? || html.None? {
      completed := false;
      return;
    }
    var versions := loaded.value + ["latest"];
    ghost var pristine := Locate(html.value);
    var i := 0;
    while i < |versions|
      invariant 0 <= i <= |versions|
      invariant i > 0 ==> pristine.Some?
      invariant pristine.Some? ==> writes == AllWrites(basePath, baseUrl, pristine.value, versions[..i], probe)
      invariant i == 0 ==> writes == []
    {
      var v := versions[i];
      var located := Locate(html.value);
      if located.None? {
        completed := false;
        return;
      }
      var written := WriteVersion(basePath, baseUrl, located.value, v, probe);
      writes := writes + written;
      assert versions[..i + 1] == versions[..i] + [v];
      AllWritesSnoc(basePath, baseUrl, located.value, versions[..i], v, probe);
      i := i + 1;
    }
    assert versions[..i] == versions;
    completed := true;
  }
}
