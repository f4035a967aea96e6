# ghas-csv-export in Dafny

A verified model of `main.py`, the batch script that lists the repositories of
a GitHub organisation or user, collects the code-scanning alerts of each one,
and writes them to `alerts.csv` as one row per alert.

The HTTP layer is abstract. A response is a `Http.Page`: a status code, the
decoded JSON array, and whether the `Link` header has a `next` relation. A
`Server<T>` maps the URL of a first request to the chain of pages reached by
following `next` links (`Http.IsChain`: at least one page, every page but the
last links onwards). The `ORG` and `USER` variables are `Option<string>`
parameters. The CSV file is the sequence of rows the writer receives, each
row a sequence of JSON scalars (`Alerts.Value`).

Modules, in pipeline order:

- `Target`: `build_repo_url` and `build_alerts_url`.
- `Lister`: `get_repos`. `ListPages` specifies it as a fold over the pages; `GetRepos` is the loop.
- `Fetcher`: `get_alerts`. `ScanRepos`/`ScanPages` specify it; `GetAlerts` is the nested loop.
- `Alerts` and `Normalizer`: the alert record and `clean_alert`.
- `Report`: the header and row loop of `main`.
- `Pipeline`: `main` end to end.

Behaviour kept from the code:

- `get_alerts` adds one separate `{repo, alerts}` entry for every status-200 page. Pages are never merged into one entry per repository.
- `get_alerts` follows a `next` link whatever the status of the page that carried it.
- A page that is neither 200 nor 404 prints a warning. The warning shows the repository's base alerts URL, even for later pages.
- `rule.get("security_severity_level", "n/a")` tests whether the key is present, not whether it is null. A severity key holding JSON null stays null in the row.
- `clean_alert` raises on the first missing key, in the order it reads them (`Normalizer.Rank`).
- When `clean_alert` raises, the rows already written stay in the file after the header. The run ends there.
- `get_repos` raises on a missing `name` key (`Lister.MissingName`) as well as on a non-200 page.
- `build_repo_url` is annotated `-> str` but returns the pair `(url, slug)`. It is modelled as the pair `Target.Listing`.
- Both `ORG` and `USER` may be set; the organisation wins.

`USER` is also the login-name variable of most shells, so the "no target"
failure is rarely reached in practice.

## Model

| member | source | states |
|---|---|---|
| `Target.BuildRepoUrl` | main.py:13-25 | Fails exactly when neither org nor user is set. Otherwise the slug is the org if set, else the user. The URL is `orgs/<org>/repos?type=public` for an org and `users/<user>/repos` for a user, under the API endpoint. |
| `Target.OrgTakesPrecedence` | main.py:17-19 | With an org set, the user setting makes no difference, and the result is the org listing URL with the org as slug. |
| `Target.OrgAndUserUrlsDiffer` | main.py:18-21 | An org listing URL never equals a user listing URL. |
| `Target.ListingUrlDeterminesTarget` | main.py:17-25 | Two configurations that produce the same listing URL produce the same slug and the same kind of account. |
| `Target.BuildAlertsUrl` | main.py:28-32 | The alerts URL splits into the prefix `<endpoint>repos/<slug>/`, the repository name, and the suffix `/code-scanning/alerts`. |
| `Target.AlertsUrlDistinguishesRepos` | main.py:32 | Within one account, different repositories are queried at different URLs. |
| `Lister.PageNames` | main.py:42-43 | A page's names are its elements' `name` values, one per element, in order. It fails exactly when some element has no name. |
| `Lister.ReadPage` | main.py:41-45 | Reading one page appends its names to the list, or raises for a non-200 status or a nameless element. |
| `Lister.ListFailureSticks` | main.py:47-53 | Once a page has raised, later pages do not change the outcome. |
| `Lister.ListPagesAppend` | main.py:39-54 | Listing is concatenation. Pages `a + b` succeed exactly when both parts do, and their names are `a`'s names followed by `b`'s. |
| `Lister.ListSucceedsIffAllPagesOk` | main.py:41-53 | The listing succeeds exactly when every page has status 200 and every element has a name. |
| `Lister.BadStatusRaises` | main.py:44-53 | A non-200 page, first or later, after accepted pages makes the listing raise with that status. No names are returned. |
| `Lister.GetRepos` | main.py:35-54 | The loop returns exactly `ListPages` of the chain. It requests every page on success. On failure it stops at the failing page: every page before it was accepted, and the last page requested is the one that raised. |
| `Normalizer.CleanAlert` | main.py:87-100 | Succeeds exactly when all required keys are present. On failure it names the first missing key in lookup order, and every key read before it is present. On success the row has nine cells, one per header label. |
| `Normalizer.CleanAlertColumns` | main.py:91-100 | Each cell of a clean row is the alert's value under the header label of its column. Severity is `"n/a"` when its key is absent, and is copied verbatim, null included, when present. |
| `Fetcher.ScanPagesCounts` | main.py:63-84 | Every page of a repository is requested. Earlier entries and warnings are kept. Each 200 page adds exactly one entry for the repository, and each page that is neither 200 nor 404 adds one warning with the repository's alerts URL. |
| `Fetcher.OkPageCollected` | main.py:63-84 | A 200 page anywhere in the chain is collected as its own entry, even after 404 or error pages. The entry sits right after the entries of the earlier 200 pages, so a repository's entries follow page order. |
| `Fetcher.NotFoundContributesNothing` | main.py:68-69 | A repository whose pages all return 404 adds no entry and no warning. Its pages are still counted as requests. |
| `Fetcher.ScanPagesAlertCount` | main.py:66-78 | The number of alerts collected for a repository equals the number of alerts on its 200 pages. |
| `Fetcher.ScanReposAppend` | main.py:62-63 | Repositories are visited in input order. The result for `a + b` is the result for `a` followed by the result for `b`. |
| `Fetcher.GetAlerts` | main.py:57-84 | The nested loop produces exactly `ScanRepos`: its entries, its warnings, and its request count. |
| `Report.EmitFailureSticks` | main.py:111-113 | After a row fails, no later alert changes what was written. |
| `Report.EmitSpec` | main.py:111-113 | Rows are written, in order, for the longest prefix of complete alerts. The loop fails exactly when an incomplete alert exists, and the failure names the first missing key of the alert that follows that prefix. |
| `Report.FlattenLength` | main.py:111-112 | The nested loop visits one alert per alert of every entry. |
| `Report.FlattenAt` | main.py:111-112 | Alert `j` of entry `i` is visited after all alerts of earlier entries, at offset `j`, and is tagged with entry `i`'s repository. |
| `Report.CompleteReport` | main.py:107-113 | When every alert is complete, the file has 1 + (number of alerts) rows. The row of alert `j` of entry `i` is its `clean_alert` row, at the position given by entry order, then alert order. |
| `Report.WriteReport` | main.py:107-113 | The file receives the header row and then the rows of `Emit`. The method reports the missing key that interrupted the loop, if any. |
| `Pipeline.Run` | main.py:103-113 | Follows `RunSpec`. With neither org nor user set, the run fails with no request. A listing failure ends the run before the report, after at least one and at most all listing pages. On success, the requests are all listing pages plus all alert pages. |
| `Pipeline.CompleteRun` | main.py:103-113 | End to end with complete alerts: no failure, the header first, and 1 + (alerts collected) rows. |

## Left out

- HTTP requests, `Link` header parsing and JSON decoding are not modelled. Responses are the abstract pages a `Server` returns. A chain that never ends (endless pagination) is outside the model.
- Reading `ORG`, `USER` and `TOKEN` from the environment is not modelled; org and user are parameters. The `Authorization` header and the token are not modelled because they have no effect on the data.
- File handling is not modelled: opening `alerts.csv`, truncating it, and closing it. The CSV writer's rendering (quoting, escaping, integers as decimal text, `None` as an empty field) is not modelled either. The output is the sequence of rows the writer receives.
- The text of printed warnings and exception messages, including the response body, is not modelled. Warnings are kept as `(status, url)` records, and exceptions as error values.
- JSON values other than null, integers and strings are not modelled in alert fields. A nested object (`rule`, `tool`, `most_recent_instance`, `location`) that is present but not an object, for example null, is not modelled; the model treats such an object as either present or absent.
- A response body that is not a JSON array is not modelled. A listing element that is not an object is not modelled either.
