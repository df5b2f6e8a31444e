/** The four source adapters and the `source_dict` lookup (main.py lines
    25-75, 80). Fetching and HTML parsing are abstract: a `Web` maps a URL to
    what the parsers extract from the page found there. */
module Adapters {
  import opened Wrappers
  import opened Text
  import opened Evaluator

  /** What the adapters read from one URL. `Unreachable` is a request that
      `requests.get` ends with an exception (a refused connection, a DNS
      failure, a timeout); otherwise the server answered with a page:
      - `status`: the HTTP status code;
      - `releaseVersions`: the stripped texts of the `<p class="release__version">`
        elements, in document order;
      - `versionRow(caption)`: the texts of the `<td>` cells in the row of the
        first `<td>` whose text is `caption`, or `None` when there is no such cell;
      - `latestTag`: the text of the release-tag link in the block holding the
        "Latest" badge, or `None` when the badge or the link is missing. */
  datatype Page =
    | Unreachable
    | Served(
    status: int,
    releaseVersions: seq<string>,
    versionRow: string -> Option<seq<string>>,
    latestTag: Option<string>)

  /** The network as seen by the adapters: the answer to a request for each URL. */
  type Web = string -> Page

  /** An adapter's return: an observation, or the `IndexError` that `main`
      catches. */
  datatype Lookup = Found(obs: Observation) | NotFound

  /** The exceptions that `main` does not catch and that end the run: the
      `KeyError` of an unknown source, the `AttributeError` of a `find`
      that returned nothing, and the exception of a request that got no
      answer. */
  datatype Fault = UnknownSource | MissingElement | ConnectionFailed

  /** The keys of `source_dict`. */
  const Sources: set<string> := {"pypi", "cran", "bioconductor", "github"}

  predicate KnownSource(source: Option<string>) {
    source.Some? && source.value in Sources
  }

  /** An observation classified by its own version text. */
  ghost predicate ClassifiedByVersion(o: Observation) {
    o.stable <==> !IsSubstring(PreReleaseMarker, o.version)
  }

  function PypiUrl(name: string): string {
    "https://pypi.org/project/" + name + "/#history"
  }

  function CranUrl(name: string): string {
    "https://cran.r-project.org/web/packages/" + name + "/index.html"
  }

  function BioconductorUrl(name: string): string {
    "https://www.bioconductor.org/packages/release/bioc/html/" + name + ".html"
  }

  function GithubUrl(name: string): string {
    "https://github.com/" + name + "/releases.html"
  }

  /** Lines 31-33: classify the stripped paragraph text, then cut it at its
      first newline and build the release link from what is left. */
  function PypiObservation(name: string, text: string): (o: Observation)
    ensures IsLineHead(o.version, text)
    ensures '\n' !in text ==> o.version == text
    ensures o.stable <==> !IsSubstring(PreReleaseMarker, text)
    ensures o.link == "https://pypi.org/project/" + name + "/" + o.version + "/"
  {
    var stable := IsStable(text);
    var version := SubNewlineRuns(text);
    Observation(version, stable, "https://pypi.org/project/" + name + "/" + version + "/")
  }

  /** `pypi_search` (lines 25-34). The status code is not checked; an empty
      list of release paragraphs makes `[0]` raise `IndexError`. */
  function PypiSearch(name: string, web: Web): (r: Result<Lookup, Fault>)
    ensures r.Failure? <==> web(PypiUrl(name)).Unreachable?
    ensures r.Failure? ==> r.error == ConnectionFailed
    ensures r.Success? ==>
              (r.value.NotFound? <==> web(PypiUrl(name)).releaseVersions == [])
    ensures r.Success? && r.value.Found? ==>
              r.value.obs == PypiObservation(name, web(PypiUrl(name)).releaseVersions[0])
  {
    match web(PypiUrl(name))
    case Unreachable => Failure(ConnectionFailed)
    case Served(_, versions, _, _) =>
      if |versions| == 0 then Success(NotFound)
      else Success(Found(PypiObservation(name, versions[0])))
  }

  /** The page answered with status 200 and holds a row labelled `caption`
      with at least two cells, so the CRAN and Bioconductor adapters can
      read its second cell. */
  predicate HasVersionCell(page: Page, caption: string) {
    && page.Served?
    && page.status == 200
    && page.versionRow(caption).Some?
    && |page.versionRow(caption).value| >= 2
  }

  /** The shared shape of `cran_search` and `bioconductor_search`: a non-200
      status raises `IndexError`; a missing label cell makes `.parent` fail
      with `AttributeError`; a row with fewer than two cells makes `[1]`
      raise `IndexError`; otherwise the second cell's text is the version and
      the page URL is the link. */
  function TableSearch(url: string, caption: string, web: Web): (r: Result<Lookup, Fault>)
    ensures r == Failure(ConnectionFailed) <==> web(url).Unreachable?
    ensures r == Failure(MissingElement) <==>
              web(url).Served? && web(url).status == 200 && web(url).versionRow(caption).None?
    ensures r != Failure(UnknownSource)
    ensures r.Success? && r.value.Found? <==> HasVersionCell(web(url), caption)
    ensures web(url).Served? && web(url).status != 200 ==> r == Success(NotFound)
    ensures r.Success? && r.value.Found? ==>
              && r.value.obs.version == web(url).versionRow(caption).value[1]
              && r.value.obs.link == url
              && ClassifiedByVersion(r.value.obs)
  {
    match web(url)
    case Unreachable => Failure(ConnectionFailed)
    case Served(status, _, versionRow, _) =>
      if status != 200 then Success(NotFound)
      else match versionRow(caption)
        case None => Failure(MissingElement)
        case Some(cells) =>
          if |cells| < 2 then Success(NotFound)
          else
            var version := cells[1];
            Success(Found(Observation(version, IsStable(version), url)))
  }

  /** `cran_search` (lines 37-45): the row labelled "Version:". */
  function CranSearch(name: string, web: Web): (r: Result<Lookup, Fault>)
    ensures r == Failure(ConnectionFailed) <==> web(CranUrl(name)).Unreachable?
    ensures r == Failure(MissingElement) <==>
              var page := web(CranUrl(name));
              page.Served? && page.status == 200 && page.versionRow("Version:").None?
    ensures r != Failure(UnknownSource)
    ensures r.Success? && r.value.Found? <==> HasVersionCell(web(CranUrl(name)), "Version:")
    ensures r.Success? && r.value.Found? ==>
              && r.value.obs.version == web(CranUrl(name)).versionRow("Version:").value[1]
              && r.value.obs.link == CranUrl(name)
              && ClassifiedByVersion(r.value.obs)
  {
    TableSearch(CranUrl(name), "Version:", web)
  }

  /** `bioconductor_search` (lines 49-57): the row labelled "Version". */
  function BioconductorSearch(name: string, web: Web): (r: Result<Lookup, Fault>)
    ensures r == Failure(ConnectionFailed) <==> web(BioconductorUrl(name)).Unreachable?
    ensures r == Failure(MissingElement) <==>
              var page := web(BioconductorUrl(name));
              page.Served? && page.status == 200 && page.versionRow("Version").None?
    ensures r != Failure(UnknownSource)
    ensures r.Success? && r.value.Found? <==> HasVersionCell(web(BioconductorUrl(name)), "Version")
    ensures r.Success? && r.value.Found? ==>
              && r.value.obs.version == web(BioconductorUrl(name)).versionRow("Version").value[1]
              && r.value.obs.link == BioconductorUrl(name)
              && ClassifiedByVersion(r.value.obs)
  {
    TableSearch(BioconductorUrl(name), "Version", web)
  }

  /** `github_search` (lines 59-68): a non-200 status raises `IndexError`; a
      missing badge or tag link fails with `AttributeError`. */
  function GithubSearch(name: string, web: Web): (r: Result<Lookup, Fault>)
    ensures r == Failure(ConnectionFailed) <==> web(GithubUrl(name)).Unreachable?
    ensures r == Failure(MissingElement) <==>
              var page := web(GithubUrl(name));
              page.Served? && page.status == 200 && page.latestTag.None?
    ensures r != Failure(UnknownSource)
    ensures r == Success(NotFound) <==>
              web(GithubUrl(name)).Served? && web(GithubUrl(name)).status != 200
    ensures r.Success? && r.value.Found? <==>
              var page := web(GithubUrl(name));
              page.Served? && page.status == 200 && page.latestTag.Some?
    ensures r.Success? && r.value.Found? ==>
              && web(GithubUrl(name)).latestTag == Some(r.value.obs.version)
              && r.value.obs.link == GithubUrl(name)
              && ClassifiedByVersion(r.value.obs)
  {
    var url := GithubUrl(name);
    match web(url)
    case Unreachable => Failure(ConnectionFailed)
    case Served(status, _, _, latestTag) =>
      if status != 200 then Success(NotFound)
      else match latestTag
        case None => Failure(MissingElement)
        case Some(version) => Success(Found(Observation(version, IsStable(version), url)))
  }

  /** `source_dict[p_dict.get("source")](package)` (lines 72-75, 80): a
      missing source reads as `None`, which is no key, so it raises `KeyError`
      like any other unknown name. */
  function Search(source: Option<string>, name: string, web: Web): (r: Result<Lookup, Fault>)
    ensures r == Failure(UnknownSource) <==> !KnownSource(source)
    ensures r.Success? && r.value.Found? && source != Some("pypi") ==> ClassifiedByVersion(r.value.obs)
    ensures source == Some("pypi") ==> (r.Success? <==> web(PypiUrl(name)).Served?)
    ensures source == Some("pypi") ==> r == PypiSearch(name, web)
    ensures source == Some("cran") ==> r == CranSearch(name, web)
    ensures source == Some("bioconductor") ==> r == BioconductorSearch(name, web)
    ensures source == Some("github") ==> r == GithubSearch(name, web)
  {
    match source
    case Some("pypi") => PypiSearch(name, web)
    case Some("cran") => CranSearch(name, web)
    case Some("bioconductor") => BioconductorSearch(name, web)
    case Some("github") => GithubSearch(name, web)
    case _ => Failure(UnknownSource)
  }
}
