/**
 * The four reports: the popular, trending and new lists, each one search
 * formatted record by record, and the per-category mapping built by a loop
 * over the category table.
 */
module Reports {
  import opened Json
  import opened Search
  import opened Format

  /** A report: the formatted records of one search, in the order found. */
  type Report = seq<Record>

  /** The category report: category label to its report, in table order. */
  type CategoryReport = Dict<Report>

  // ---------------------------------------------------------------------------
  // Queries. The dates are opaque strings (the script formats them as %Y-%m-%d).

  const PopularQuery := "stars:>5000 topic:machine-learning"

  const TrendingPrefix := "pushed:>"
  const TrendingSuffix := " stars:>1000 topic:ai"
  const NewPrefix := "created:>"
  const NewSuffix := " stars:>50"
  const CategorySuffix := " stars:>1000"

  /** Repositories pushed after `since` with over 1000 stars and topic `ai`. */
  function TrendingQuery(since: string): string {
    TrendingPrefix + since + TrendingSuffix
  }

  /** Repositories created after `since` with over 50 stars. */
  function NewQuery(since: string): string {
    NewPrefix + since + NewSuffix
  }

  /** A category's first keyword, restricted to over 1000 stars. */
  function CategoryQuery(keyword: string): string {
    keyword + CategorySuffix
  }

  /** The text between `prefix` and `suffix`, if `q` has that shape. */
  function Between(q: string, prefix: string, suffix: string): (r: Option<string>)
    ensures r.Some? ==> q == prefix + r.value + suffix
  {
    if |prefix| + |suffix| <= |q| && q[..|prefix|] == prefix && q[|q| - |suffix|..] == suffix then
      var x := q[|prefix|..|q| - |suffix|];
      assert q == q[..|prefix|] + x + q[|q| - |suffix|..];
      Some(x)
    else None
  }

  lemma {:induction false} BetweenEnclosed(prefix: string, x: string, suffix: string)
    ensures Between(prefix + x + suffix, prefix, suffix) == Some(x)
  {
    var q := prefix + x + suffix;
    assert q[..|prefix|] == prefix;
    assert q[|q| - |suffix|..] == suffix;
    assert q[|prefix|..|q| - |suffix|] == x;
  }

  /** The date of a trending query can be read back from it. */
  lemma TrendingQueryDate(since: string)
    ensures Between(TrendingQuery(since), TrendingPrefix, TrendingSuffix) == Some(since)
  {
    BetweenEnclosed(TrendingPrefix, since, TrendingSuffix);
  }

  /** The date of a new-repositories query can be read back from it. */
  lemma NewQueryDate(since: string)
    ensures Between(NewQuery(since), NewPrefix, NewSuffix) == Some(since)
  {
    BetweenEnclosed(NewPrefix, since, NewSuffix);
  }

  /** The keyword of a category query can be read back from it. */
  lemma CategoryQueryKeyword(keyword: string)
    ensures Between(CategoryQuery(keyword), "", CategorySuffix) == Some(keyword)
  {
    assert CategoryQuery(keyword) == "" + keyword + CategorySuffix;
    BetweenEnclosed("", keyword, CategorySuffix);
  }

  // ---------------------------------------------------------------------------
  // The list reports

  /** `[format_repo_data(repo) for repo in repos]` */
  function FormatAll(repos: seq<RawRepo>): Report {
    if repos == [] then [] else [FormatRepoData(repos[0], None)] + FormatAll(repos[1..])
  }

  /** The comprehension keeps length and order: record `i` is raw object `i` formatted. */
  lemma {:induction false} FormatAllElements(repos: seq<RawRepo>)
    ensures |FormatAll(repos)| == |repos|
    ensures forall i :: 0 <= i < |repos| ==> FormatAll(repos)[i] == FormatRepoData(repos[i], None)
  {
    if repos != [] {
      FormatAllElements(repos[1..]);
    }
  }

  /** A report mirrors a search: it fails as the search fails, else formats its items one for one. */
  ghost predicate Mirrors(r: Result<Report>, s: Result<Found>) {
    && (r.Ok? <==> s.Ok?)
    && (s.Raised? ==> r.error == s.error)
    && (s.Ok? ==>
          && |r.value| == |s.value.items|
          && forall i :: 0 <= i < |s.value.items| ==> r.value[i] == FormatRepoData(s.value.items[i], None))
  }

  /** `get_popular_repos()` */
  function PopularRepos(api: Api): (r: Result<Report>)
    ensures Mirrors(r, SearchRepositories(api, PopularQuery, "stars", 50))
  {
    var found :- SearchRepositories(api, PopularQuery, "stars", 50);
    FormatAllElements(found.items);
    Ok(FormatAll(found.items))
  }

  /** `get_trending_repos()`, with the date seven days back given as `since`. */
  function TrendingRepos(api: Api, since: string): (r: Result<Report>)
    ensures Mirrors(r, SearchRepositories(api, TrendingQuery(since), "stars", 50))
  {
    var found :- SearchRepositories(api, TrendingQuery(since), "stars", 50);
    FormatAllElements(found.items);
    Ok(FormatAll(found.items))
  }

  /** `get_new_repos()`, with the date thirty days back given as `since`. */
  function NewRepos(api: Api, since: string): (r: Result<Report>)
    ensures Mirrors(r, SearchRepositories(api, NewQuery(since), "stars", 50))
  {
    var found :- SearchRepositories(api, NewQuery(since), "stars", 50);
    FormatAllElements(found.items);
    Ok(FormatAll(found.items))
  }

  // ---------------------------------------------------------------------------
  // The category report

  /** `CATEGORIES`: category label to its search keywords. */
  const Categories: Dict<seq<string>> := Dict(
    [
      "LLM & 生成AI", "機械学習", "自然言語処理", "AIツール",
      "データサイエンス", "コンピュータビジョン", "MLOps"
    ],
    map[
      "LLM & 生成AI" := ["llm", "large language model", "gpt", "chatbot", "generative-ai"],
      "機械学習" := ["machine learning", "deep learning", "tensorflow", "pytorch"],
      "自然言語処理" := ["nlp", "natural language processing", "transformers", "bert"],
      "AIツール" := ["ai tools", "copilot", "ai assistant", "ai agent"],
      "データサイエンス" := ["data science", "jupyter", "pandas", "data analysis"],
      "コンピュータビジョン" := ["computer vision", "opencv", "image recognition", "yolo"],
      "MLOps" := ["mlops", "ml infrastructure", "model deployment", "mlflow"]
    ])

  /** The first keyword of each category, in table order: the only one searched. */
  const FirstKeywords: seq<string> := [
    "llm", "machine learning", "nlp", "ai tools", "data science", "computer vision", "mlops"
  ]

  lemma FirstKeywordsOfCategories()
    ensures |FirstKeywords| == |Categories.keys|
    ensures forall i :: 0 <= i < |Categories.keys| ==>
      && Categories.keys[i] in Categories.entries
      && |Categories.entries[Categories.keys[i]]| > 0
      && Categories.entries[Categories.keys[i]][0] == FirstKeywords[i]
  {
  }

  /** The requests `get_category_repos()` sends, in table order. */
  function CategoryRequests(): (rs: seq<Request>)
    ensures |rs| == |FirstKeywords|
    ensures forall i :: 0 <= i < |rs| ==> rs[i] == Request(CategoryQuery(FirstKeywords[i]), "stars", "desc", 20)
  {
    seq(|FirstKeywords|, i requires 0 <= i < |FirstKeywords| => SearchRequest(CategoryQuery(FirstKeywords[i]), "stars", 20))
  }

  /** The loop body for one category: `keywords[0]`, its search, the comprehension. */
  function CategoryEntry(api: Api, keywords: seq<string>): Result<Report> {
    if |keywords| == 0 then Raised(IndexError)
    else
      var found :- SearchRepositories(api, CategoryQuery(keywords[0]), "stars", 20);
      Ok(FormatAll(found.items))
  }

  /**
   * A category without keywords raises IndexError; otherwise its entry is its
   * first keyword's search, over 1000 stars and twenty per page, formatted.
   */
  lemma CategoryEntryMirrors(api: Api, keywords: seq<string>)
    ensures |keywords| == 0 ==> CategoryEntry(api, keywords) == Raised(IndexError)
    ensures |keywords| > 0 ==>
      Mirrors(CategoryEntry(api, keywords), SearchRepositories(api, CategoryQuery(keywords[0]), "stars", 20))
  {
    if |keywords| > 0 {
      var s := SearchRepositories(api, CategoryQuery(keywords[0]), "stars", 20);
      if s.Ok? { FormatAllElements(s.value.items); }
    }
  }

  /** The loop body, as a function of a category's keyword list. */
  type EntryOf = seq<string> -> Result<Report>

  /** The loop body `get_category_repos` runs against `api`. */
  function SearchEntry(api: Api): EntryOf {
    keywords => CategoryEntry(api, keywords)
  }

  /**
   * The loop of `get_category_repos` from the `i`-th category on, with `acc`
   * filled so far and `entry` the loop body.
   */
  function CategoryLoop(entry: EntryOf, cats: Dict<seq<string>>, i: nat, acc: CategoryReport): Result<CategoryReport>
    requires cats.Valid() && i <= |cats.keys|
    decreases |cats.keys| - i
  {
    if i == |cats.keys| then Ok(acc)
    else
      var repos :- entry(cats.entries[cats.keys[i]]);
      CategoryLoop(entry, cats, i + 1, acc.Set(cats.keys[i], repos))
  }

  /** `get_category_repos()` over the table `cats`. */
  function CategoryRepos(api: Api, cats: Dict<seq<string>>): Result<CategoryReport>
    requires cats.Valid()
  {
    CategoryLoop(SearchEntry(api), cats, 0, EmptyDict())
  }

  /** Category `category` completes: the loop body raises nothing for it. */
  ghost predicate CategoryCompletes(entry: EntryOf, cats: Dict<seq<string>>, category: string)
    requires category in cats.entries
  {
    entry(cats.entries[category]).Ok?
  }

  /** Category `category` of `report` holds its entry. */
  ghost predicate CategoryFilled(entry: EntryOf, cats: Dict<seq<string>>, report: CategoryReport, category: string)
    requires category in cats.entries
  {
    && CategoryCompletes(entry, cats, category)
    && category in report.entries
    && report.entries[category] == entry(cats.entries[category]).value
  }

  /** One pass of the loop body keeps the filled prefix filled and extends it by one category. */
  lemma FillStep(entry: EntryOf, cats: Dict<seq<string>>, i: nat, acc: CategoryReport)
    requires cats.Valid() && i < |cats.keys|
    requires acc.Valid() && acc.keys == cats.keys[..i]
    requires forall j :: 0 <= j < i ==> CategoryFilled(entry, cats, acc, cats.keys[j])
    requires CategoryCompletes(entry, cats, cats.keys[i])
    ensures var next := acc.Set(cats.keys[i], entry(cats.entries[cats.keys[i]]).value);
      && next.Valid() && next.keys == cats.keys[..i + 1]
      && forall j :: 0 <= j < i + 1 ==> CategoryFilled(entry, cats, next, cats.keys[j])
  {
    var category := cats.keys[i];
    var report := entry(cats.entries[category]).value;
    var next := acc.Set(category, report);
    NoDuplicatesAt(cats.keys, i);
    assert category !in acc.entries;
    acc.SetValid(category, report);
    assert cats.keys[..i + 1] == cats.keys[..i] + [category];
    forall j | 0 <= j < i + 1
      ensures CategoryFilled(entry, cats, next, cats.keys[j])
    {
      if j < i {
        assert CategoryFilled(entry, cats, acc, cats.keys[j]);
        assert cats.keys[j] != category by { assert cats.keys[..i][j] == cats.keys[j]; }
        assert next.entries[cats.keys[j]] == acc.entries[cats.keys[j]];
      }
    }
  }

  /** The loop from category `i` on completes iff every remaining category completes. */
  lemma {:induction false} CategoryLoopCompletes(entry: EntryOf, cats: Dict<seq<string>>, i: nat, acc: CategoryReport)
    requires cats.Valid() && i <= |cats.keys|
    ensures CategoryLoop(entry, cats, i, acc).Ok? <==>
      forall j :: i <= j < |cats.keys| ==> CategoryCompletes(entry, cats, cats.keys[j])
    decreases |cats.keys| - i
  {
    if i < |cats.keys| {
      var category := cats.keys[i];
      if CategoryCompletes(entry, cats, category) {
        var next := acc.Set(category, entry(cats.entries[category]).value);
        assert CategoryLoop(entry, cats, i, acc) == CategoryLoop(entry, cats, i + 1, next);
        CategoryLoopCompletes(entry, cats, i + 1, next);
      } else {
        assert CategoryLoop(entry, cats, i, acc).Raised?;
      }
    }
  }

  /** A loop that raises lets out the exception of its first failing category. */
  lemma {:induction false} CategoryLoopRaises(entry: EntryOf, cats: Dict<seq<string>>, i: nat, acc: CategoryReport)
    requires cats.Valid() && i <= |cats.keys|
    requires CategoryLoop(entry, cats, i, acc).Raised?
    ensures exists j ::
      && i <= j < |cats.keys|
      && (forall m :: i <= m < j ==> CategoryCompletes(entry, cats, cats.keys[m]))
      && entry(cats.entries[cats.keys[j]]) == Raised(CategoryLoop(entry, cats, i, acc).error)
    decreases |cats.keys| - i
  {
    assert i < |cats.keys|;
    var category := cats.keys[i];
    var e := CategoryLoop(entry, cats, i, acc).error;
    if CategoryCompletes(entry, cats, category) {
      var next := acc.Set(category, entry(cats.entries[category]).value);
      assert CategoryLoop(entry, cats, i, acc) == CategoryLoop(entry, cats, i + 1, next);
      CategoryLoopRaises(entry, cats, i + 1, next);
      var j :| i + 1 <= j < |cats.keys|
        && (forall m :: i + 1 <= m < j ==> CategoryCompletes(entry, cats, cats.keys[m]))
        && entry(cats.entries[cats.keys[j]]) == Raised(e);
      assert forall m :: i <= m < j ==> CategoryCompletes(entry, cats, cats.keys[m]);
    } else {
      assert entry(cats.entries[cats.keys[i]]) == Raised(e);
    }
  }

  /** A completed loop has listed every category in order and filled each one. */
  lemma {:induction false} CategoryLoopFills(entry: EntryOf, cats: Dict<seq<string>>, i: nat, acc: CategoryReport)
    requires cats.Valid() && i <= |cats.keys|
    requires acc.Valid() && acc.keys == cats.keys[..i]
    requires forall j :: 0 <= j < i ==> CategoryFilled(entry, cats, acc, cats.keys[j])
    requires CategoryLoop(entry, cats, i, acc).Ok?
    ensures var r := CategoryLoop(entry, cats, i, acc).value;
      r.Valid() && r.keys == cats.keys &&
      forall j :: 0 <= j < |cats.keys| ==> CategoryFilled(entry, cats, r, cats.keys[j])
    decreases |cats.keys| - i
  {
    if i < |cats.keys| {
      var category := cats.keys[i];
      assert CategoryCompletes(entry, cats, category);
      var next := acc.Set(category, entry(cats.entries[category]).value);
      assert CategoryLoop(entry, cats, i, acc) == CategoryLoop(entry, cats, i + 1, next);
      FillStep(entry, cats, i, acc);
      CategoryLoopFills(entry, cats, i + 1, next);
    } else {
      assert cats.keys[..i] == cats.keys;
    }
  }

  /**
   * The category report lists exactly the table's labels, in table order,
   * each holding the formatted results of its first keyword's search; it is
   * produced iff every category has a keyword and no search raises.
   */
  lemma CategoryReposShape(api: Api, cats: Dict<seq<string>>)
    requires cats.Valid()
    ensures CategoryRepos(api, cats).Ok? <==>
      forall category :: category in cats.entries ==> CategoryEntry(api, cats.entries[category]).Ok?
    ensures CategoryRepos(api, cats).Ok? ==>
      var r := CategoryRepos(api, cats).value;
      && r.Valid() && r.keys == cats.keys
      && forall category :: category in cats.entries ==>
           category in r.entries && r.entries[category] == CategoryEntry(api, cats.entries[category]).value
  {
    var entry := SearchEntry(api);
    assert cats.keys[..0] == [];
    CategoryLoopCompletes(entry, cats, 0, EmptyDict());
    if CategoryRepos(api, cats).Ok? {
      CategoryLoopFills(entry, cats, 0, EmptyDict());
    }
    forall category | category in cats.entries
      ensures exists j :: 0 <= j < |cats.keys| && cats.keys[j] == category
    {
      assert category in cats.keys;
    }
  }

  /** A category report that raises lets out the exception of the first category that raises. */
  lemma CategoryReposRaises(api: Api, cats: Dict<seq<string>>)
    requires cats.Valid()
    ensures CategoryRepos(api, cats).Raised? ==>
      exists j ::
        && 0 <= j < |cats.keys|
        && (forall m :: 0 <= m < j ==> CategoryEntry(api, cats.entries[cats.keys[m]]).Ok?)
        && CategoryEntry(api, cats.entries[cats.keys[j]]) == Raised(CategoryRepos(api, cats).error)
  {
    var entry := SearchEntry(api);
    if CategoryRepos(api, cats).Raised? {
      CategoryLoopRaises(entry, cats, 0, EmptyDict());
      var j :| 0 <= j < |cats.keys|
        && (forall m :: 0 <= m < j ==> CategoryCompletes(entry, cats, cats.keys[m]))
        && entry(cats.entries[cats.keys[j]]) == Raised(CategoryRepos(api, cats).error);
      assert forall m :: 0 <= m < j ==> CategoryEntry(api, cats.entries[cats.keys[m]]).Ok?;
      assert CategoryEntry(api, cats.entries[cats.keys[j]]) == Raised(CategoryRepos(api, cats).error);
    }
  }

  /** Two loop bodies that agree on every remaining category give the same loop. */
  lemma {:induction false} CategoryLoopAgrees(e1: EntryOf, e2: EntryOf, cats: Dict<seq<string>>, i: nat, acc: CategoryReport)
    requires cats.Valid() && i <= |cats.keys|
    requires forall j :: i <= j < |cats.keys| ==> e1(cats.entries[cats.keys[j]]) == e2(cats.entries[cats.keys[j]])
    ensures CategoryLoop(e1, cats, i, acc) == CategoryLoop(e2, cats, i, acc)
    decreases |cats.keys| - i
  {
    if i < |cats.keys| {
      var r := e1(cats.entries[cats.keys[i]]);
      if r.Ok? {
        CategoryLoopAgrees(e1, e2, cats, i + 1, acc.Set(cats.keys[i], r.value));
      }
    }
  }

  /** `get_category_repos()`: the loop that fills the dict, category by category. */
  method GetCategoryRepos(api: Api, cats: Dict<seq<string>>) returns (r: Result<CategoryReport>)
    requires cats.Valid()
    ensures r == CategoryRepos(api, cats)
  {
    var categoryRepos: CategoryReport := EmptyDict();
    var i := 0;
    while i < |cats.keys|
      invariant 0 <= i <= |cats.keys|
      invariant CategoryLoop(SearchEntry(api), cats, i, categoryRepos) == CategoryRepos(api, cats)
    {
      var keywords := cats.entries[cats.keys[i]];
      if |keywords| == 0 {
        return Raised(IndexError);
      }
      var repos := SearchRepositories(api, CategoryQuery(keywords[0]), "stars", 20);
      if repos.Raised? {
        return Raised(repos.error);
      }
      categoryRepos := categoryRepos.Set(cats.keys[i], FormatAll(repos.value.items));
      i := i + 1;
    }
    return Ok(categoryRepos);
  }

  /** No category label is listed twice: their first characters differ. */
  lemma CategoryLabelsDistinct()
    ensures NoDuplicates(Categories.keys)
  {
    var ks := Categories.keys;
    forall i, j | 0 <= i < j < |ks|
      ensures ks[i] != ks[j]
    {
      assert ks[i][0] != ks[j][0];
    }
    DistinctHasNoDuplicates(ks);
  }

  /** The category table is a proper dict and every category has a first keyword. */
  lemma CategoriesWellFormed()
    ensures Categories.Valid()
    ensures forall category :: category in Categories.entries ==> |Categories.entries[category]| > 0
  {
    CategoryLabelsDistinct();
  }
}
