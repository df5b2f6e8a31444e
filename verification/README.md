# softup update checker: a Dafny model

softup checks a dictionary of software packages against their upstream
registries and reports new stable or pre-release versions. Each package record
names its `source`: `pypi`, `cran`, `bioconductor` or `github`. It may also hold
the last seen `stable` and `pre-release` versions and a `link`. `main` walks the
packages in dictionary order and does four things for each one:

- it looks up the source's adapter;
- it fetches the latest version with that adapter;
- it compares the result with the record;
- it collects updated packages in `update_dict` and not-found packages in
  `error_list`.

The model is written in pure functions:

- `wrappers.dfy` (`Wrappers`): `Option` for absent dictionary keys, and
  `Result` for exceptions.
- `text.dfy` (`Text`): the string rules the adapters share.
  - The stability test is Python's `"pre-release" in text`. It is modelled as
    a left-to-right scan (`Contains`) and proved equal to a reference
    definition of "is a substring".
  - PyPI's `re.sub(r'\n.*', '', s)` is modelled literally (`SubNewlineRuns`).
    It is proved to return exactly the text before the first newline
    (`IsLineHead`, which has a unique solution).
- `evaluator.dfy` (`Evaluator`): the package record, the observation
  `(version, stable, link)`, the logged outcome kind, and `Evaluate`, the
  priority-ordered comparison at the core of `main`.
- `adapters.dfy` (`Adapters`): the four adapters and the `source_dict` lookup.
  - The network and the HTML parser are one abstract value, `Web`. It maps a
    URL either to `Unreachable`, when `requests.get` raises because no answer
    came back, or to what the parsers would extract from the page served
    there: the status code, the release paragraphs, the cells of a labelled
    table row, and the "Latest" tag.
  - The adapters' failures fall into two groups. Some raise an `IndexError`,
    which `main` catches as "not found": an empty list indexed with `[0]`, a
    non-200 status, or a table row too short for `[1]`. Others are not
    caught and end the run: the `AttributeError` of a `find` that returns
    nothing, and the exception of a request that gets no answer.
- `batch.dfy` (`Batch`): the loop of `main`. It is a left-to-right fold over
  the `(name, record)` entries and threads three things: the records, the
  keys of `update_dict`, and `error_list`. It also threads a log holding the
  outcome kind of each package, which stands in for the log messages. The
  fold (`Loop`) is generic over its loop body, and `Run` instantiates it with
  the real per-package step `Check`.

Behaviour of the code worth knowing, all modelled as written:

- An unknown or missing `source` raises `KeyError`. `main` does not catch it,
  so the whole run ends; it is not recorded as a per-package error.
- A CRAN, Bioconductor or GitHub page without the expected element raises an
  uncaught `AttributeError`, which also ends the run; it does not count as
  "not found".
- A request whose connection fails raises from `requests.get`, which `main`
  does not catch either, so the run ends.
- The PyPI adapter never checks the status code. It reports "not found" only
  when the page has no release paragraph.
- A non-stable observation whose version already equals the recorded
  pre-release fails the pre-release test. It then goes on to the stable
  comparison, and the version is written into `stable`. This is modelled as
  written (`RepeatedPreReleaseBecomesStable`).

## Model

| member | source | states |
|---|---|---|
| Text.Contains | src/softup/main.py:31 | Python's `m in s` holds exactly when `m` occurs at some index of `s` |
| Text.IsStable | src/softup/main.py:31 | a text is classified non-stable exactly when it contains "pre-release" |
| Text.SubNewlineRuns | src/softup/main.py:32 | the regex substitution returns the newline-free prefix of its input that ends where the input ends or at a newline, and returns the input itself when it has no newline |
| Text.LineHeadUnique | src/softup/main.py:32 | that characterisation has exactly one solution, so the trimmed version is determined: the text before the first newline |
| Text.MarkerSurvivesOnlyInHead | src/softup/main.py:31-32 | if the trimmed PyPI text still contains the marker, then the untrimmed text was classified non-stable |
| Text.PypiBadgeTrimmed | src/softup/main.py:32 | a release text with a badge on its second line, "2.0b1\npre-release", is trimmed to "2.0b1" |
| Text.PypiBadgeClassified | src/softup/main.py:31-32 | that text is non-stable, while its trimmed form alone would be stable, so the order of classifying and trimming matters |
| Adapters.PypiObservation | src/softup/main.py:31-33 | the PyPI version is the text before the first newline; stability is judged on the untrimmed text; the link is "https://pypi.org/project/" + name + "/" + version + "/" |
| Adapters.PypiSearch | src/softup/main.py:25-34 | the PyPI adapter faults, with a connection failure, exactly when the request gets no answer; otherwise it reports not found exactly when the page has no release paragraph, and observes the first one |
| Adapters.TableSearch | src/softup/main.py:37-57 | a request without an answer is a connection fault; a missing label cell on a 200 page, and only that, is a missing-element fault; the result is found exactly when the page has status 200 and a labelled row of at least two cells, and then the version is the second cell, classified by its own text, linking to the fetched page; a non-200 page is not found |
| Adapters.CranSearch | src/softup/main.py:37-45 | the CRAN adapter faults on a request without an answer or, on a 200 page, a missing "Version:" cell; it finds a version exactly when a 200 page has a "Version:" row of at least two cells, and then the version is that row's second cell, classified by its own text, linking to the package's CRAN index page |
| Adapters.BioconductorSearch | src/softup/main.py:49-57 | the Bioconductor adapter faults on a request without an answer or, on a 200 page, a missing "Version" cell; it finds a version exactly when a 200 page has a "Version" row of at least two cells, and then the version is that row's second cell, classified by its own text, linking to the package's release page |
| Adapters.GithubSearch | src/softup/main.py:59-68 | a request without an answer is a connection fault; a non-200 page, and only that, is not found; a 200 page without a "Latest" tag is a missing-element fault; a version is found exactly when a 200 page has the tag, and then it is the tag text, classified by itself, linking to the releases page |
| Adapters.Search | src/softup/main.py:72-80 | each of the four keys calls its own adapter; the lookup fails with an unknown-source fault exactly when the source is missing or is not one of the four keys; PyPI faults only when its request gets no answer; non-PyPI observations are classified by their own version |
| Evaluator.Evaluate | src/softup/main.py:85-98 | the outcome is never "not found"; the record is unchanged exactly when nothing new was found; the pre-release branch fires exactly on a non-stable version that differs from the recorded pre-release, with absent fields read as ""; the stable branch fires exactly otherwise when the stable field differs; the branch taken writes exactly the observed version into its field, present even when empty, and afterwards the record holds the observed version in the field for its stability; the source never changes; each branch leaves the other version field alone and sets the link, and no-change keeps the link |
| Evaluator.ChangeReportedUnlessReflected | src/softup/main.py:85-96 | a stable observation is reported as an update exactly when the record did not already hold it; a non-stable one the record does not hold is always a pre-release update |
| Evaluator.PreReleaseTakesPriority | src/softup/main.py:85-90 | when both fields would change, only the pre-release is recorded and "stable" is left untouched |
| Evaluator.RepeatedPreReleaseBecomesStable | src/softup/main.py:85-96 | a non-stable version equal to the recorded pre-release but not the recorded stable version is written into "stable", with the link |
| Evaluator.StableIdempotent | src/softup/main.py:91-96 | evaluating the same stable observation again on the updated record changes nothing |
| Evaluator.ConvergesWithinTwoSteps | src/softup/main.py:85-98 | for any observation, the third evaluation in a row changes nothing |
| Evaluator.NewPreReleaseTakesTwoSteps | src/softup/main.py:85-96 | a new pre-release fires the pre-release branch, then the stable branch, and the third evaluation is quiet, so the two-step bound is reached |
| Evaluator.EmptyVersionOnBareRecord | src/softup/main.py:85-98 | absent fields compare as "": an empty version against a record with no fields changes nothing |
| Evaluator.Scenarios | src/softup/main.py:85-98 | three worked cases: a new stable version is recorded; a first pre-release on a bare record leaves "stable" absent; an unchanged stable version changes nothing |
| Batch.Check | src/softup/main.py:79-98 | one loop iteration fails with an unknown-source fault exactly when the source is unknown; it never changes the source; it leaves the record as it was unless it reports an update; it reports "not found" exactly when the adapter raised the caught `IndexError`; it raises exactly the adapter's uncaught fault; a found observation is passed to `Evaluate`, whose kind and record are the iteration's outcome |
| Batch.ErrorNames | src/softup/main.py:81-84 | `error_list` contains exactly the packages logged as not found, and is no longer than the log |
| Batch.ErrorNamesAppend | src/softup/main.py:81-84 | `error_list` keeps iteration order: the not-found packages of a log are those of its first part followed by those of the rest |
| Batch.ErrorNamesSingle | src/softup/main.py:81-84 | one logged package contributes itself to `error_list` exactly when it was not found |
| Batch.UpdatedNames | src/softup/main.py:88-94 | `update_dict` contains exactly the packages logged with an update |
| Batch.Step | src/softup/main.py:78-98 | a step fails exactly when the loop body raises; otherwise it appends exactly one record, for the processed package, and one log entry, and it only extends `error_list` and `update_dict` |
| Batch.RunFrom | src/softup/main.py:78-98 | a completed loop keeps the already-processed records as a prefix and adds exactly one record per remaining entry; an aborted loop names one of the remaining packages |
| Batch.Loop | src/softup/main.py:76-98 | a completed loop reports exactly one record and one log entry per entry |
| Batch.Run | src/softup/main.py:71-98 | a completed run reports every package; an aborted run names one of the configured packages |
| Batch.LoopReport | src/softup/main.py:76-98 | the loop completes exactly when no entry makes its body raise; then each entry's record and kind are those its own iteration gives, in order, and the two collections are read off the log |
| Batch.LoopAborts | src/softup/main.py:78-80 | a loop that ends early ends at the first entry whose body raises, and every earlier entry went through |
| Batch.RunReport | src/softup/main.py:71-98 | `main` completes exactly when no package raises an uncaught error; then each package's record and kind are those of its own iteration, so no other package's processing touches them, and `error_list` and `update_dict` hold the not-found and the updated packages |
| Batch.RunAborts | src/softup/main.py:72-80 | an abort happens at the first package whose iteration raises; any package with an unknown or missing source makes the whole run abort |
| Batch.FoundIsEvaluated | src/softup/main.py:80-96 | in a completed run, a package whose adapter found an observation ends with exactly the record and the kind that `Evaluate` gives for it |
| Batch.ErrorNamesOnce | src/softup/main.py:81-84 | with distinct names, a not-found package appears in `error_list` exactly once |
| Batch.PackageOutcome | src/softup/main.py:78-98 | in a completed run with distinct keys, a package is in `update_dict` exactly when its record changed, and in `error_list` exactly when its adapter found nothing; it is never in both; a not-found package is listed once with its record untouched |

## Left out

- Network access and HTML parsing (the HTTP exchange of `requests.get`, BeautifulSoup, the `.strip()` of PyPI paragraph texts, the `href` pattern of the GitHub tag link). These are foreign libraries and I/O. They are replaced by the abstract `Web` value, which gives per URL either `Unreachable` (every exception `requests.get` can raise, without telling them apart) or the status code and the extracted texts.
- The GitHub adapter's chain of four `.parent` steps. Any missing step ends in the same `AttributeError`, so the chain is folded into `latestTag` being `None`.
- Logging setup and log messages. These are side effects. The loop records the outcome kind per package instead.
- The value stored in `update_dict`. It is `{"stable": False}` in both branches, so only membership is modelled, and it does not tell the two branches apart.
- Loading `packages.json` at the entry point. This is file I/O. The model takes the dictionary's entries, in insertion order, as a sequence.
- JSON values that are not strings (numbers, `null`, lists) in the `source`, `stable`, `pre-release` or `link` keys, and keys other than these four. Every modelled field is an optional string, and other keys are never read or written by `main`.
- Batch.Run: when the run aborts, the records already updated in place for earlier packages are not returned. The exception leaves `main` before anything reads them.
- Requests that hang. `requests.get` is called without a `timeout`, so a server that accepts the connection and never answers blocks `main` forever. `Web` is a total function and cannot express a request that never returns.
- The unimplemented mail and file-update steps. They are only TODO comments.
