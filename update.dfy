/**
 * `main`: fetch the four reports in turn and write each one's snapshot
 * before fetching the next. The clock readings are inputs; the files
 * written are returned, in order, as (path, snapshot) pairs.
 */
module Update {
  import opened Json
  import opened Search
  import opened Reports
  import opened Snapshot

  const AssetsDir := "assets"
  const PopularFile := AssetsDir + "/popular.json"
  const TrendingFile := AssetsDir + "/trending.json"
  const NewFile := AssetsDir + "/new.json"
  const CategoriesFile := AssetsDir + "/categories.json"

  /** The four snapshot files, in the order the run writes them. */
  const OutputPaths: seq<string> := [PopularFile, TrendingFile, NewFile, CategoriesFile]

  const PopularDescription := "Popular repositories with LLM/AI/ML/NLP focus"
  const TrendingDescription := "Trending repositories in the last 7 days"
  const NewDescription := "Recently created repositories (last 30 days)"
  const CategoriesDescription := "Repositories organized by AI/ML categories"

  /**
   * The clock as the run reads it: the update time stamped on every snapshot,
   * and the dates seven and thirty days back, already formatted.
   */
  datatype Clock = Clock(updateTime: string, weekAgo: string, monthAgo: string)

  /** One file written: its path and the object dumped into it. */
  datatype Write = Write(path: string, snapshot: Dict<Value>)

  /** How the run ends: it completes, or an exception aborts it (and is re-raised). */
  datatype Run = Completed | Aborted(error: Exception)

  /**
   * The results of the four getters. Each is a function of its own requests'
   * responses, so fetching one does not change what another returns.
   */
  datatype Fetched = Fetched(
    popular: Result<Report>, trending: Result<Report>,
    recent: Result<Report>, categories: Result<CategoryReport>)

  /** What the four getters return against `api`, with the dates `clock` supplies. */
  function FetchAll(api: Api, clock: Clock): Fetched {
    CategoriesWellFormed();
    Fetched(PopularRepos(api), TrendingRepos(api, clock.weekAgo), NewRepos(api, clock.monthAgo),
      CategoryRepos(api, Categories))
  }

  // ---------------------------------------------------------------------------
  // The requests of a run. They are pairwise distinct, so modelling the API as
  // a function of the request loses nothing: any ten responses can be given.

  /** The requests one run sends, in order: the three list searches, then one per category. */
  function RunRequests(clock: Clock): seq<Request> {
    [
      SearchRequest(PopularQuery, "stars", 50),
      SearchRequest(TrendingQuery(clock.weekAgo), "stars", 50),
      SearchRequest(NewQuery(clock.monthAgo), "stars", 50)
    ] + CategoryRequests()
  }

  /** Distinct first keywords: they differ in length or in their first letter. */
  lemma FirstKeywordsDistinct(i: nat, j: nat)
    requires i < j < |FirstKeywords|
    ensures FirstKeywords[i] != FirstKeywords[j]
  {
    assert |FirstKeywords[i]| != |FirstKeywords[j]| || FirstKeywords[i][0] != FirstKeywords[j][0];
  }

  /** No request is sent twice in a run, whatever the dates. */
  lemma RunRequestsDistinct(clock: Clock)
    ensures forall i, j :: 0 <= i < j < |RunRequests(clock)| ==> RunRequests(clock)[i] != RunRequests(clock)[j]
  {
    var rs := RunRequests(clock);
    var cs := CategoryRequests();
    assert rs[0].q[0] == 's' && rs[1].q[0] == 'p' && rs[2].q[0] == 'c';
    assert forall i :: 0 <= i < 3 ==> rs[i].perPage == 50;
    assert forall i :: 3 <= i < |rs| ==> rs[i] == cs[i - 3];
    forall i, j | 0 <= i < j < |rs|
      ensures rs[i] != rs[j]
    {
      if 3 <= i {
        var a := FirstKeywords[i - 3];
        var b := FirstKeywords[j - 3];
        FirstKeywordsDistinct(i - 3, j - 3);
        CategoryQueryKeyword(a);
        CategoryQueryKeyword(b);
        assert CategoryQuery(a) != CategoryQuery(b);
      }
    }
  }

  /** Two APIs that answer the requests of a run alike give the run the same reports. */
  lemma FetchReadsOnlyRequests(api1: Api, api2: Api, clock: Clock)
    requires forall i :: 0 <= i < |RunRequests(clock)| ==> api1(RunRequests(clock)[i]) == api2(RunRequests(clock)[i])
    ensures FetchAll(api1, clock) == FetchAll(api2, clock)
  {
    var rs := RunRequests(clock);
    assert api1(rs[0]) == api2(rs[0]) && api1(rs[1]) == api2(rs[1]) && api1(rs[2]) == api2(rs[2]);
    CategoriesWellFormed();
    FirstKeywordsOfCategories();
    var cats := Categories;
    forall j | 0 <= j < |cats.keys|
      ensures SearchEntry(api1)(cats.entries[cats.keys[j]]) == SearchEntry(api2)(cats.entries[cats.keys[j]])
    {
      var keywords := cats.entries[cats.keys[j]];
      assert rs[3 + j] == SearchRequest(CategoryQuery(keywords[0]), "stars", 20);
      assert api1(rs[3 + j]) == api2(rs[3 + j]);
    }
    CategoryLoopAgrees(SearchEntry(api1), SearchEntry(api2), cats, 0, EmptyDict());
  }

  /** The answer scripted for `req`: the response paired with its first occurrence in `reqs`. */
  function Respond(reqs: seq<Request>, resps: seq<Response>, req: Request): Response {
    if reqs == [] || resps == [] then NoReply
    else if reqs[0] == req then resps[0]
    else Respond(reqs[1..], resps[1..], req)
  }

  /** An API that answers `reqs` with `resps` and any other request with no reply. */
  function Scripted(reqs: seq<Request>, resps: seq<Response>): Api {
    req => Respond(reqs, resps, req)
  }

  lemma {:induction false} RespondAt(reqs: seq<Request>, resps: seq<Response>, i: nat)
    requires forall a, b :: 0 <= a < b < |reqs| ==> reqs[a] != reqs[b]
    requires |resps| == |reqs| && i < |reqs|
    ensures Respond(reqs, resps, reqs[i]) == resps[i]
  {
    if i > 0 {
      assert reqs[0] != reqs[i];
      assert reqs[1..][i - 1] == reqs[i];
      RespondAt(reqs[1..], resps[1..], i - 1);
    }
  }

  /** Any ten responses, one per request of a run, are the answers of some API. */
  lemma AnyResponses(clock: Clock, resps: seq<Response>)
    requires |resps| == |RunRequests(clock)|
    ensures forall i :: 0 <= i < |resps| ==> Scripted(RunRequests(clock), resps)(RunRequests(clock)[i]) == resps[i]
  {
    RunRequestsDistinct(clock);
    forall i | 0 <= i < |resps|
      ensures Scripted(RunRequests(clock), resps)(RunRequests(clock)[i]) == resps[i]
    {
      RespondAt(RunRequests(clock), resps, i);
    }
  }

  /** `save_json(repos, path, {..., "description": description, "count": len(repos)})` */
  function ListFile(path: string, description: string, updateTime: string, repos: Report): Write {
    Write(path, SaveJson(RecordsValue(repos), Some(ListMetadata(updateTime, description, repos)), updateTime))
  }

  /** The `save_json` call of the category stage, with its label list and summed count. */
  function CategoryFile(updateTime: string, cats: CategoryReport): Write {
    Write(CategoriesFile, SaveJson(CategoriesValue(cats),
      Some(CategoryMetadata(updateTime, CategoriesDescription, cats)), updateTime))
  }

  /** Stage `i` of the run: the file it writes, or the exception its getter raised. */
  function Stage(f: Fetched, updateTime: string, i: nat): Result<Write>
    requires i < |OutputPaths|
  {
    if i == 0 then
      var repos :- f.popular;
      Ok(ListFile(PopularFile, PopularDescription, updateTime, repos))
    else if i == 1 then
      var repos :- f.trending;
      Ok(ListFile(TrendingFile, TrendingDescription, updateTime, repos))
    else if i == 2 then
      var repos :- f.recent;
      Ok(ListFile(NewFile, NewDescription, updateTime, repos))
    else
      var cats :- f.categories;
      Ok(CategoryFile(updateTime, cats))
  }

  /** A list snapshot goes to its path, and its `count` is its number of records. */
  lemma ListFileConsistent(path: string, description: string, updateTime: string, repos: Report)
    ensures ListFile(path, description, updateTime, repos).path == path
    ensures CountConsistent(ListFile(path, description, updateTime, repos).snapshot)
  {
    ListSnapshotConsistent(repos, updateTime, description, updateTime);
  }

  /** The category snapshot goes to its path, and its `count` sums the categories' records. */
  lemma CategoryFileConsistent(updateTime: string, cats: CategoryReport)
    ensures CategoryFile(updateTime, cats).path == CategoriesFile
    ensures CountConsistent(CategoryFile(updateTime, cats).snapshot)
  {
    CategorySnapshotConsistent(cats, updateTime, CategoriesDescription, updateTime);
  }

  /**
   * A stage that succeeds writes its own file, and the file's `count` is the
   * number of records it stores.
   */
  lemma StageConsistent(f: Fetched, updateTime: string, i: nat)
    requires i < |OutputPaths| && Stage(f, updateTime, i).Ok?
    ensures Stage(f, updateTime, i).value.path == OutputPaths[i]
    ensures CountConsistent(Stage(f, updateTime, i).value.snapshot)
  {
    if i == 0 {
      assert Stage(f, updateTime, i) == Ok(ListFile(PopularFile, PopularDescription, updateTime, f.popular.value));
      ListFileConsistent(PopularFile, PopularDescription, updateTime, f.popular.value);
    } else if i == 1 {
      assert Stage(f, updateTime, i) == Ok(ListFile(TrendingFile, TrendingDescription, updateTime, f.trending.value));
      ListFileConsistent(TrendingFile, TrendingDescription, updateTime, f.trending.value);
    } else if i == 2 {
      assert Stage(f, updateTime, i) == Ok(ListFile(NewFile, NewDescription, updateTime, f.recent.value));
      ListFileConsistent(NewFile, NewDescription, updateTime, f.recent.value);
    } else {
      assert Stage(f, updateTime, i) == Ok(CategoryFile(updateTime, f.categories.value));
      CategoryFileConsistent(updateTime, f.categories.value);
    }
  }

  /** `writes` are the files of the first `|writes|` stages, each of which succeeded. */
  ghost predicate WrittenSoFar(f: Fetched, updateTime: string, writes: seq<Write>) {
    && |writes| <= |OutputPaths|
    && forall i :: 0 <= i < |writes| ==> Stage(f, updateTime, i) == Ok(writes[i])
  }

  /**
   * The run from stage `i` on, with `written` the files already written: each
   * stage writes its file and the next one follows, until one raises.
   */
  function RunFrom(f: Fetched, updateTime: string, i: nat, written: seq<Write>): (seq<Write>, Run)
    requires i <= |OutputPaths|
    decreases |OutputPaths| - i
  {
    if i == |OutputPaths| then (written, Completed)
    else
      match Stage(f, updateTime, i)
      case Raised(e) => (written, Aborted(e))
      case Ok(w) => RunFrom(f, updateTime, i + 1, written + [w])
  }

  /** The files a run writes and how it ends, given what the getters return. */
  function RunOf(f: Fetched, updateTime: string): (seq<Write>, Run) {
    RunFrom(f, updateTime, 0, [])
  }

  /** From any consistent prefix on, the run keeps the written files in step with the stages. */
  lemma {:induction false} RunFromShape(f: Fetched, updateTime: string, i: nat, written: seq<Write>)
    requires i <= |OutputPaths| && |written| == i && WrittenSoFar(f, updateTime, written)
    ensures var (writes, run) := RunFrom(f, updateTime, i, written);
      && WrittenSoFar(f, updateTime, writes)
      && (run.Completed? <==> |writes| == |OutputPaths|)
      && (run.Aborted? ==>
            |writes| < |OutputPaths| && Stage(f, updateTime, |writes|) == Raised(run.error))
    decreases |OutputPaths| - i
  {
    if i < |OutputPaths| && Stage(f, updateTime, i).Ok? {
      var w := Stage(f, updateTime, i).value;
      var next := written + [w];
      forall k | 0 <= k < |next|
        ensures Stage(f, updateTime, k) == Ok(next[k])
      {
        if k < i {
          assert next[k] == written[k];
        }
      }
      RunFromShape(f, updateTime, i + 1, next);
    }
  }

  /**
   * A run writes the files of a prefix of the stages, each of which succeeded;
   * it completes exactly when all four are written, and otherwise stops at the
   * first stage that raised, with that stage's exception.
   */
  lemma RunShape(f: Fetched, updateTime: string)
    ensures var (writes, run) := RunOf(f, updateTime);
      && WrittenSoFar(f, updateTime, writes)
      && (run.Completed? <==> |writes| == |OutputPaths|)
      && (run.Aborted? ==>
            |writes| < |OutputPaths| && Stage(f, updateTime, |writes|) == Raised(run.error))
  {
    RunFromShape(f, updateTime, 0, []);
  }

  /** Every file written goes to its stage's path and carries a consistent count. */
  lemma WrittenFilesConsistent(f: Fetched, updateTime: string, writes: seq<Write>)
    requires WrittenSoFar(f, updateTime, writes)
    ensures forall i :: 0 <= i < |writes| ==>
      writes[i].path == OutputPaths[i] && CountConsistent(writes[i].snapshot)
  {
    forall i | 0 <= i < |writes|
      ensures writes[i].path == OutputPaths[i] && CountConsistent(writes[i].snapshot)
    {
      StageConsistent(f, updateTime, i);
    }
  }

  /** A stage that succeeds writes its file and hands on to the next. */
  lemma RunStep(f: Fetched, updateTime: string, i: nat, written: seq<Write>, w: Write)
    requires i < |OutputPaths| && Stage(f, updateTime, i) == Ok(w)
    ensures RunFrom(f, updateTime, i, written) == RunFrom(f, updateTime, i + 1, written + [w])
  {
  }

  /** A stage that raises ends the run with the files written before it. */
  lemma RunStop(f: Fetched, updateTime: string, i: nat, written: seq<Write>, e: Exception)
    requires i < |OutputPaths| && Stage(f, updateTime, i) == Raised(e)
    ensures RunFrom(f, updateTime, i, written) == (written, Aborted(e))
  {
  }

  /**
   * `main()`: each stage fetches its report and writes its file; the first
   * getter that raises aborts the run, after the files of the stages before
   * it have been written (there is no rollback), and the exception is re-raised.
   */
  method UpdateRepositories(api: Api, clock: Clock) returns (writes: seq<Write>, run: Run)
    ensures (writes, run) == RunOf(FetchAll(api, clock), clock.updateTime)
  {
    ghost var f := FetchAll(api, clock);
    assert f.popular == PopularRepos(api) && f.trending == TrendingRepos(api, clock.weekAgo);
    assert f.recent == NewRepos(api, clock.monthAgo);
    writes := [];
    var updateTime := clock.updateTime;

    var popularRepos := PopularRepos(api);
    if popularRepos.Raised? {
      RunStop(f, updateTime, 0, writes, popularRepos.error);
      return writes, Aborted(popularRepos.error);
    }
    var popularFile := ListFile(PopularFile, PopularDescription, updateTime, popularRepos.value);
    RunStep(f, updateTime, 0, writes, popularFile);
    writes := writes + [popularFile];

    var trendingRepos := TrendingRepos(api, clock.weekAgo);
    if trendingRepos.Raised? {
      RunStop(f, updateTime, 1, writes, trendingRepos.error);
      return writes, Aborted(trendingRepos.error);
    }
    var trendingFile := ListFile(TrendingFile, TrendingDescription, updateTime, trendingRepos.value);
    RunStep(f, updateTime, 1, writes, trendingFile);
    writes := writes + [trendingFile];

    var newRepos := NewRepos(api, clock.monthAgo);
    if newRepos.Raised? {
      RunStop(f, updateTime, 2, writes, newRepos.error);
      return writes, Aborted(newRepos.error);
    }
    var newFile := ListFile(NewFile, NewDescription, updateTime, newRepos.value);
    RunStep(f, updateTime, 2, writes, newFile);
    writes := writes + [newFile];

    CategoriesWellFormed();
    var categoryRepos := GetCategoryRepos(api, Categories);
    assert f.categories == categoryRepos;
    if categoryRepos.Raised? {
      RunStop(f, updateTime, 3, writes, categoryRepos.error);
      return writes, Aborted(categoryRepos.error);
    }
    var categoriesFile := CategoryFile(updateTime, categoryRepos.value);
    RunStep(f, updateTime, 3, writes, categoriesFile);
    writes := writes + [categoriesFile];

    return writes, Completed;
  }
}
