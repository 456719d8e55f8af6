# Version-link rewriter of the Docusaurus version updater

This project models `ai_updater.py`, the script that patches the archived
version pages of a Docusaurus site so that they link back correctly. For each
version in `_versions.json`, and for a final synthetic `"latest"`, the script
re-parses the pristine `versions.html` template. It then does four things:

- the title link, every nav link and the version-switcher link get a
  version-prefixed href, but only when a HEAD request to the new URL answers
  200;
- the switcher's `<h3>` is relabelled with the version;
- the page is written to `versions/<v>/versions.html`;
- the same page is written to `versions/<v>/en/versions.html`.

Three files hold the model:

- `option.dfy` holds the `Option` datatype.
- `links.dfy` (module `Links`) models `prepend_url` and `ai_link_verification`, plus the conditional rewrite of one link and of the nav list.
- `updater.dfy` (module `Updater`) models the rest of `updateVersionHTML`:
  - the template lookups, which may fail;
  - a mutable `Document` class whose methods rewrite its links in place, in loops;
  - the output paths;
  - the per-version loop, whose file writes are returned as a trace.

The HEAD request is an oracle: a function parameter `probe: string -> HeadOutcome`.
Its outcome is either a status code or a request exception. The HTML document is
abstracted to the parts the script looks up (`Template`) and the values it mutates
(`Page`, `Document`).

## Model

| member | source | states |
|---|---|---|
| Links.IsAbsolute | ai_updater.py:38 | the classification prepend_url makes: an href is absolute when it starts with "https://" or "http://" |
| Links.VersionPrefix | ai_updater.py:41 | the prefix `{base_url}versions/{version}` put in front of a relative href |
| Links.PrependUrl | ai_updater.py:36-43 | an href starting with "https://" or "http://" is returned unchanged; for any other href, stripping the version prefix `base_url + "versions/" + version` off the result gives back exactly the href |
| Links.StripVersionPrefix | ai_updater.py:41-43 | the inverse of prefixing: it succeeds exactly when the URL carries the version prefix, and the prefix followed by what it returns is the URL |
| Links.RelativeHrefFormula | ai_updater.py:40-43 | a relative href becomes exactly base_url + "versions/" + version + href, which starts with base_url and ends with the href |
| Links.PrependUrlAbsoluteIff | ai_updater.py:36-43 | the rewritten URL is absolute if and only if the href or the base URL is absolute ("versions/" can never complete a scheme begun by a short base URL) |
| Links.PrependUrlTwiceDiffers | ai_updater.py:46 | with a relative href and base URL, prefixing an already prefixed href changes it again, so a version's output would be wrong if the template were not re-parsed on each iteration |
| Links.LinkVerified | ai_updater.py:8-14 | a link verifies exactly when the HEAD request returns status 200; a request exception counts as not verified |
| Links.RewriteHref | ai_updater.py:50-54 | the conditional rewrite of one link, used for the title, each nav link (59-63) and the switcher (67-71): an absolute href is never changed; a relative href becomes base_url + "versions/" + version + href if that URL verifies, and is kept unchanged otherwise |
| Links.RewriteAll | ai_updater.py:57-63 | the nav list keeps its length, and link i becomes the rewrite of href i, decided by link i's own check alone |
| Links.NavOutcomeIsLocal | ai_updater.py:58-63 | fault isolation: two verifiers that agree on link i's URL give link i the same outcome, whatever they answer for the other links |
| Updater.NavHrefs | ai_updater.py:57-61 | the nav hrefs are found exactly when every nav anchor has an href attribute; they are then the anchors' hrefs, in document order |
| Updater.WellFormed | ai_updater.py:49-72 | the condition under which every lookup of one iteration succeeds: a header anchor with an href, a nav whose anchors all have hrefs, and a switcher anchor with an href and a nested h3 |
| Updater.Locate | ai_updater.py:49-72 | a page is located exactly when every lookup succeeds: header anchor with href, nav with hrefs, switcher anchor with href and a nested h3; it holds those hrefs and the h3 text |
| Updater.RenderVersion | ai_updater.py:48-73 | the page one iteration produces for a version: title, nav and switcher hrefs each conditionally rewritten, and the switcher labelled with the version; its promises are stated by RenderVersionSpec |
| Updater.RenderVersionSpec | ai_updater.py:48-73 | after processing version v, the title and switcher hrefs are the prefixed URL if it verified and unchanged if not; each nav link follows the same rule on its own check and their number is kept; the switcher label is v in every case |
| Updater.Document.Parse | ai_updater.py:46 | a freshly parsed document holds exactly the located page |
| Updater.Document.Serialize | ai_updater.py:79-83 | `str(soup)`: the document's current links and label, the text written to both output files |
| Updater.Document.RewriteTitle | ai_updater.py:49-54 | the title href becomes the conditional rewrite of its old value; nothing else changes |
| Updater.Document.RewriteNav | ai_updater.py:57-63 | the loop over nav links leaves exactly the pointwise rewrite of the old nav hrefs; nothing else changes |
| Updater.Document.RewriteSwitcher | ai_updater.py:66-73 | the switcher href becomes the conditional rewrite of its old value, and the label becomes the version unconditionally |
| Updater.Document.RewriteForVersion | ai_updater.py:48-73 | the serialised document after one iteration is the rendering of the old one for that version |
| Updater.OutputPath | ai_updater.py:76-79 | the main output path `{base_path}/new-site/versions/{v}/versions.html` |
| Updater.LocalizedOutputPath | ai_updater.py:80-83 | the "en" output path `{base_path}/new-site/versions/{v}/en/versions.html` |
| Updater.VersionWrites | ai_updater.py:76-83 | the two writes of one version: the page rendered for it, to its main path and then to its "en" path |
| Updater.OutputPathInjective | ai_updater.py:76-83 | two versions with the same main output path, or with the same "en" output path, are the same version |
| Updater.OutputPathsDisjoint | ai_updater.py:76-83 | a main path and an "en" path coincide exactly when the first version is the second followed by "/en"; so they never coincide when the first version has no '/' |
| Updater.AllWrites | ai_updater.py:45-83 | the loop over a version list makes exactly two writes per version |
| Updater.AllWritesAt | ai_updater.py:45-83 | the writes come in list order: write 2k goes to version k's main path and write 2k+1 to its "en" path, and both carry the page rendered for version k alone |
| Updater.AllWritesSnoc | ai_updater.py:34-45 | processing one more version, such as the appended "latest", adds exactly that version's two writes after those of the earlier versions |
| Updater.IterationsIndependent | ai_updater.py:45-46 | for a verifier that answers each URL the same way, a version's two writes are the same whatever versions were processed before it |
| Updater.OutputsIdentical | ai_updater.py:76-83 | both files of a version receive the same text; for a verifier that answers each URL the same way, a version listed twice is written twice with the same content |
| Updater.MainFileCoverage | ai_updater.py:76-79 | unless v is a listed version followed by "/en", the `versions.html` of v is written if and only if v is in the processed list: no omissions, no extras |
| Updater.LocalizedFileCoverage | ai_updater.py:80-83 | unless v followed by "/en" is listed, the `en/versions.html` of v is written if and only if v is in the processed list |
| Updater.WriteVersion | ai_updater.py:46-83 | one iteration on a freshly parsed page writes the page rendered for that version to the version's main path, then the same text to its "en" path |
| Updater.UpdateVersionHtml | ai_updater.py:26-85 | the run completes if and only if both input files load and every lookup succeeds; if it does not complete, nothing is written; if it does, the writes are those of the loaded list followed by "latest", in order |
| Updater.DefaultBaseUrlExample | ai_updater.py:6 | with the default base URL "/", prepend_url returns "/versions/1.0.0/docs/intro" for the relative href "/docs/intro" and version "1.0.0" (the URL that is then checked) |
| Updater.DefaultBaseUrlNeverRewrites | ai_updater.py:104 | with the default base URL and a verifier that fails on every URL starting with "/", no href is rewritten |
| Updater.DefaultBaseUrlOnlyRelabels | ai_updater.py:104 | with the default base URL and such a verifier, each version's output is the template with only the switcher label changed |
| Updater.AbsoluteBaseUrlRewrites | ai_updater.py:27 | with an absolute base URL, the URL checked for a relative href is absolute, and the href is rewritten exactly when that URL verifies |

## Left out

- The HEAD request itself (`requests.head`, following redirects) is a network call. It is the oracle parameter `probe`, so the model also does not capture that two checks of the same URL may answer differently.
- HTML parsing, the lookups (`find`, `findAll`, `find_next`) and `str(soup)` belong to a foreign library. The document is reduced to the three link roles and the `<h3>` label. Parsing and serialising are the identity on that reduction. Markup outside those links is not represented.
- The model treats the title, nav and switcher anchors as three distinct elements. If a template made `find_next("a")` return the title anchor or a nav anchor, the script would rewrite that element twice; this aliasing is not modelled.
- Updater.UpdateVersionHtml: a failed lookup is modelled as failing before any work of that iteration. In the script, the HEAD requests for the links already processed are made first. This is not observable in the output, because the document is discarded and nothing is written.
- Reading and JSON-decoding the two input files are inputs to `UpdateVersionHtml` (`None` when they cannot be read or decoded). A version list containing something other than strings is not modelled.
- File writes are assumed to succeed; the writes are returned as a trace of (path, content) pairs. A write failure midway would leave earlier versions written; this is not modelled.
- The `dynamic_error_handling` decorator is modelled only as the `completed` flag, which is false when an exception would have been swallowed. The function's `None` return carries no information.
- `print` logging (warnings for failed checks, success lines) and the argparse entry point are not modelled. The command line cannot override the base URL; `DefaultBaseUrl` records the constant.
- Updater.MainFileCoverage and Updater.LocalizedFileCoverage exclude exactly the collision `OutputPathsDisjoint` describes: a version "x/en" writes its main file onto the "en" path of "x".

## Findings

| source | as written | input that shows it | evidently intended | confidence | as-written member | corrected member |
|---|---|---|---|---|---|---|
| ai_updater.py:104 | the command line always calls `updateVersionHTML` with the default base URL "/", so every prefixed URL is a path without a scheme; `requests.head` raises on a URL without a scheme, and `ai_link_verification` then answers False | href "/docs/intro", version "1.0.0": the URL checked is "/versions/1.0.0/docs/intro", the check fails, and the href stays "/docs/intro" in every output; only the switcher label changes | a base URL under which the checked URL is reachable, such as an absolute site URL, so that relative links are rewritten when their versioned page exists | medium; not executed (the failure of a scheme-less HEAD request is the HTTP library's behaviour, outside this repository) | Updater.DefaultBaseUrlOnlyRelabels | Updater.AbsoluteBaseUrlRewrites |

The rest of the model takes the base URL as a parameter of `UpdateVersionHtml`, as `updateVersionHTML` itself does (ai_updater.py:27). The corrected behaviour is that procedure called with an absolute base URL. The verifier stays an uninterpreted oracle everywhere except in the two default-base-URL lemmas.
