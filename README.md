# update_repos: a verified model of the repository snapshot updater

`scripts/update_repos.py` queries the GitHub repository search API for four
reports and writes each one as a JSON snapshot under `assets/`:

- the popular list: over 5000 stars, topic `machine-learning`, 50 per page;
- the trending list: pushed in the last 7 days, over 1000 stars, topic `ai`;
- the new list: created in the last 30 days, over 50 stars;
- the category mapping: for each of the seven categories in `CATEGORIES`,
  a search on its first keyword with over 1000 stars, 20 per page.

Every search result is projected by `format_repo_data` onto a fixed nine-field
record. `save_json` wraps a report in an envelope with a `metadata` block.
`main` fills that block with a `count` of the stored records and, for the
category snapshot, the list of category labels.

The model keeps everything that is deterministic once the outside world is
made an input:

- The GitHub API is a parameter `api: Request -> Response`. A response is a
  status, an optional `X-RateLimit-Remaining` header and a body, or no reply
  at all (a request exception).
- The clock is a parameter `Clock`: the update time, and the dates seven and
  thirty days back, as already formatted strings.
- A file write is a value `Write(path, snapshot)`. The run returns the files
  it writes, in order.

Python dicts keep insertion order, so a dict is modelled as `Json.Dict`: a key
sequence plus a map. `Dict.Set` is `d[k] = v`, which appends a new key and
keeps an existing key in place. Exceptions that escape a function are
`Raised(...)` values of `Json.Result`. There are two:

- `ValueError`, from `int()` on a non-numeric remaining-calls header. It
  escapes `search_repositories` because that function only catches request
  exceptions.
- `IndexError`, from `keywords[0]` on a category with no keywords.

Modules, bottom up:

- `Json`: dicts, JSON values, `Result`.
- `Search`: the request, the response, and what `search_repositories` makes
  of it.
- `Format`: `format_repo_data`.
- `Reports`: the queries, the three list reports, and the category loop. The
  loop is specified as a function and implemented as a method.
- `Snapshot`: the `save_json` envelope, the metadata blocks and their counts.
- `Update`: `main`, specified by a reference function `RunOf`, with lemmas
  about what that function does.

The low-calls warning is printed only after `raise_for_status()` and
`response.json()` succeed (lines 76-81). `int(remaining)` raises `ValueError`
on a non-numeric header. `search_repositories` does not catch it, so it
escapes the getter, and `main` logs and re-raises it (lines 250-252).

The ten requests of one run are pairwise distinct, whatever the dates
(`Update.RunRequestsDistinct`). So modelling the API as a function of the
request loses nothing: any ten responses are the answers of some API
(`Update.AnyResponses`), and the reports depend on nothing else
(`Update.FetchReadsOnlyRequests`).

## Model

| member | source | states |
|---|---|---|
| Search.Outcome | scripts/update_repos.py:68-96 | No reply, a 4xx/5xx status or an undecodable body gives `[]` and never raises; a 403 is reported as the rate limit and any other failure as a search error. A delivered body gives its `items`, or `[]` when there are none. It raises exactly when the body is delivered and the header is present, non-empty and not an integer literal, and then raises `ValueError` with that text. After a delivered body, the warning fires exactly when the header is given and parses below 10, and it carries the parsed number. |
| Json.Dict.Set | scripts/update_repos.py:115 | `d[k] = v` maps `k` to `v` and leaves every other entry alone. A new key goes last; an existing key keeps its position. |
| Json.KeyList | scripts/update_repos.py:238 | `list(category_repos.keys())` is a JSON list as long as the key list, with key `i` as string `i`. |
| Search.ParseInt | scripts/update_repos.py:80 | `int(remaining)` succeeds exactly on an optionally signed string of decimal digits. A `-` sign gives a value ≤ 0; otherwise the value is ≥ 0. |
| Search.ParseIntValue | scripts/update_repos.py:80 | For every sign `""`, `"+"` or `"-"`, every number of leading zeros `k` and every count `n`, `int(sign + "0" * k + str(n))` is `n`, negated under `-`. |
| Search.LeadingZeros | scripts/update_repos.py:80 | Leading zeros do not change the value of a digit string. |
| Search.ParseDecimal | scripts/update_repos.py:80 | Parsing a rendered count gives back that count. |
| Search.WarnsOnLowCount | scripts/update_repos.py:72-81 | After a successful status, a numeric header warns exactly when the count is below 10, and the search still returns normally. |
| Search.SearchRequest | scripts/update_repos.py:61-66 | The GET carries the query, the sort key, `order=desc` and the page size. |
| Search.SearchRepositories | scripts/update_repos.py:58-96 | One GET with the query, sort key, descending order and page size. The search raises exactly when that response is delivered with a given header that is not an integer literal, and then raises `ValueError` with the header's text. Otherwise it returns the delivered `items`, or `[]` when there are none or the response is not delivered. |
| Format.FieldsKeys | scripts/update_repos.py:101-111 | The nine record keys are distinct, are exactly the keys of the field table, and do not include `affiliate_link`. |
| Format.ProjectKeys | scripts/update_repos.py:101-111 | With distinct keys, the dict display is a proper dict whose keys are the fields' keys, in order. |
| Format.ProjectValues | scripts/update_repos.py:101-111 | With distinct keys, every field of the display holds `repo.get(source, default)`. |
| Format.BaseRecord | scripts/update_repos.py:101-111 | The display has exactly the nine keys, in order, without `affiliate_link`, and each field holds its `get` value. |
| Format.FormatRepoData | scripts/update_repos.py:99-117 | The record is a proper dict. Its keys are exactly the nine keys, then `affiliate_link` when one is given. Each field is the raw value under its source key (`name` comes from `full_name`) when that key is present, and its default (`""`, `0` or `[]`) otherwise. `affiliate_link` is present exactly when the argument is truthy (neither `None` nor `""`), and it then holds the argument. |
| Format.ProjectReadsOnlySources | scripts/update_repos.py:101-111 | Two raw objects that agree on the source keys of a field list project to the same dict. |
| Format.FormatReadsOnlyFields | scripts/update_repos.py:99-117 | Raw objects that agree on the nine source keys format identically, so no other raw field leaks into a record. |
| Reports.TrendingQueryDate | scripts/update_repos.py:132-134 | The trending query is `pushed:>` + date + ` stars:>1000 topic:ai`, and the date can be read back from it. |
| Reports.NewQueryDate | scripts/update_repos.py:142-143 | The new-repositories query is `created:>` + date + ` stars:>50`, and the date can be read back from it. |
| Reports.CategoryQueryKeyword | scripts/update_repos.py:156 | The category query is the keyword + ` stars:>1000`, and the keyword can be read back from it. |
| Reports.FormatAllElements | scripts/update_repos.py:126 | The comprehension keeps the length and the order: record `i` is raw object `i` formatted without an affiliate link. |
| Reports.PopularRepos | scripts/update_repos.py:120-126 | Against any API, the report raises exactly when the search on `stars:>5000 topic:machine-learning` (by stars, 50 per page) raises, with the same error. Otherwise it has one formatted record per result, in order. |
| Reports.TrendingRepos | scripts/update_repos.py:129-136 | The same, for the trending query on the given date. |
| Reports.NewRepos | scripts/update_repos.py:139-145 | The same, for the new-repositories query on the given date. |
| Reports.CategoryEntryMirrors | scripts/update_repos.py:155-158 | A category without keywords raises `IndexError`. Otherwise its entry mirrors the search on its first keyword (by stars, 20 per page): it fails with the search, or formats the search's results one for one. |
| Reports.FillStep | scripts/update_repos.py:153-158 | One pass of the loop body keeps the dict proper, appends the category's label, and leaves the categories already filled unchanged. |
| Reports.CategoryLoopCompletes | scripts/update_repos.py:153-158 | The loop from category `i` on finishes exactly when no remaining category raises. |
| Reports.CategoryLoopFills | scripts/update_repos.py:151-160 | A finished loop returns a proper dict whose keys are the table's keys, in order, with every category holding its entry. |
| Reports.CategoryLoopRaises | scripts/update_repos.py:153-158 | A loop from category `i` that raises lets out the exception of a category `j`, and every category between `i` and `j` completed. |
| Reports.CategoryReposRaises | scripts/update_repos.py:148-160 | When `get_category_repos()` raises, its exception is that of the first category, in table order, whose entry raises. |
| Reports.CategoryLoopAgrees | scripts/update_repos.py:153-158 | Two loop bodies that agree on every remaining category give the same loop result. |
| Reports.FirstKeywordsOfCategories | scripts/update_repos.py:23-31 | Category `i` of the table has a first keyword, and it is `FirstKeywords[i]`. |
| Reports.CategoryRequests | scripts/update_repos.py:156-157 | The loop sends one request per category, in table order: the first keyword with ` stars:>1000`, by stars, descending, 20 per page. |
| Reports.CategoryReposShape | scripts/update_repos.py:148-160 | `get_category_repos()` returns exactly when every category has a keyword and no search raises. Its result then lists exactly the table's labels, in table order, and each label holds the formatted results of its first keyword's search. |
| Reports.GetCategoryRepos | scripts/update_repos.py:148-160 | The imperative loop, which raises on the first failing category and otherwise inserts each category's entry, computes the category report exactly. |
| Reports.CategoryLabelsDistinct | scripts/update_repos.py:23-31 | The seven category labels are distinct. |
| Reports.CategoriesWellFormed | scripts/update_repos.py:23-31 | `CATEGORIES` is a proper dict and every category has a first keyword, so the script's own table never raises `IndexError`. |
| Snapshot.RecordsValue | scripts/update_repos.py:174 | A list report is dumped as a JSON array of the same length, whose item `i` is record `i`. |
| Snapshot.CategoriesValue | scripts/update_repos.py:174 | The category report is dumped as a JSON object with the same keys, in the same order. Each category holds its report, dumped as an array. |
| Snapshot.TotalCountFlattens | scripts/update_repos.py:239 | `sum(len(repos) for repos in category_repos.values())` is the number of records across all categories. |
| Snapshot.CategoriesRecordCount | scripts/update_repos.py:239 | Counting the records in the dumped category object gives that sum. |
| Snapshot.ListMetadata | scripts/update_repos.py:200-206 | A list snapshot's metadata has the five keys in order: the update time, `source` `GitHub API`, the search URL as `api_url`, the description, and `count` equal to `len(repos)`. |
| Snapshot.CategoryMetadata | scripts/update_repos.py:233-240 | The category metadata has the six keys in order, with the update time, `source` `GitHub API`, the search URL as `api_url` and the description. `categories` lists the report's labels in order, and `count` is the number of records across all categories. |
| Snapshot.SaveJson | scripts/update_repos.py:163-175 | The envelope is a proper dict with keys `metadata` then `repositories`. `repositories` is the data unchanged. `metadata` is the supplied block when it is truthy (given and non-empty), and the default provenance block otherwise. |
| Snapshot.ListSnapshotConsistent | scripts/update_repos.py:199-228 | In a list snapshot, `count` equals the number of records stored. |
| Snapshot.CategorySnapshotConsistent | scripts/update_repos.py:232-240 | In the category snapshot, `count` equals the number of records stored across its categories. |
| Update.ListFileConsistent | scripts/update_repos.py:199-228 | A list stage's snapshot goes to its path and its count is consistent. |
| Update.CategoryFileConsistent | scripts/update_repos.py:232-240 | The category snapshot goes to `assets/categories.json` and its count is consistent. |
| Update.StageConsistent | scripts/update_repos.py:197-240 | A stage that succeeds writes the file for its position (popular, trending, new, categories), and that file's `count` equals the records it stores. |
| Update.RunStep | scripts/update_repos.py:199-240 | A stage that succeeds writes its file and hands on to the next stage. |
| Update.RunStop | scripts/update_repos.py:250-252 | A stage that raises ends the run, with the files written before it and that stage's exception. |
| Update.RunFromShape | scripts/update_repos.py:193-252 | From a prefix of written stage files, the rest of the run keeps the written files equal to the stages' files, and ends as `RunShape` says. |
| Update.RunShape | scripts/update_repos.py:193-252 | A run writes the files of a prefix of the four stages, and each stage in that prefix succeeded. It completes exactly when all four files are written. Otherwise it stops at the first stage that raised, with that stage's exception, and keeps the files already written. |
| Update.WrittenFilesConsistent | scripts/update_repos.py:193-240 | Every file a run writes goes to its stage's path, in the order popular, trending, new, categories, and carries a consistent `count`. |
| Update.RunRequestsDistinct | scripts/update_repos.py:120-158 | The ten requests of one run (popular, trending, new, then one per category) are pairwise distinct, whatever the two dates are. |
| Update.FetchReadsOnlyRequests | scripts/update_repos.py:120-158 | Two APIs that give the same responses to the ten requests of a run make the four getters return the same results. |
| Update.AnyResponses | scripts/update_repos.py:120-158 | For any ten responses there is an API that answers request `i` of a run with response `i`. |
| Update.UpdateRepositories | scripts/update_repos.py:182-252 | `main()` writes exactly the files, and ends exactly as, the reference run `RunOf` over what the four getters return. |

## Left out

- HTTP: `requests.get`, `raise_for_status`, `response.json()` and `get_headers`. The API is an input `Request -> Response`; a response that reaches `data.get("items", [])` is abstracted to its optional `items` list.
- An undecodable body gives `[]` only because `requests`' `JSONDecodeError` is a `RequestException` (requests 2.27 and later). The model assumes such a version.
- Bodies that do not decode to an object make `data.get` raise `AttributeError`. An `items` value that is not a list (for example `null`) makes the comprehension raise `TypeError` at line 126. A list holding non-objects makes `repo.get` raise `AttributeError`. The body type cannot express any of these, so the model has no such exceptions.
- `check_rate_limit` (lines 42-55): it reads the network and prints, and its result is unused. It runs before `main`'s `try` (line 191). A malformed rate-limit body can make it raise, for example `datetime.fromtimestamp(None)` at line 51 on `"reset": null`, which ends the run before any stage. The model does not include that call.
- `print` logging throughout, including the 403 response text and the final summary, and `time.sleep(0.5)`. They produce no value. The model records which log line a search ends with as a `Notice`.
- `datetime.now()`, `timedelta` and `strftime`/`isoformat`: the clock readings are inputs. Each getter reads the clock itself in the script. The model takes one reading of each date per run.
- The filesystem and serialisation in `save_json` (`os.makedirs`, `open`, `json.dump` with its indentation and `ensure_ascii`): a write is the envelope value and its path.
- Failures of the filesystem during a write: the model treats every write as succeeding.
- The `except Exception ... raise` in `main` only logs and re-raises. The model returns it as `Aborted(error)` with the files written so far.
- Search.ParseInt: models `int()` on ASCII decimal literals with an optional sign only; `Search.ParseIntValue` gives the value of every such literal written as sign, zeros and a rendered count. Python also accepts surrounding whitespace, `_` digit separators and non-ASCII digits; a header holding those is treated here as raising `ValueError`.
- Format.FormatRepoData: the conditional `data["affiliate_link"] = ...` update is modelled on values, through `Dict.Set`, rather than as a method that changes a dict in place.
