/**
 * The snapshot files: the envelope `save_json` wraps around a report, and
 * the metadata blocks the update run passes it, with their counts.
 */
module Snapshot {
  import opened Json
  import opened Format
  import opened Reports

  const SourceLabel := "GitHub API"
  const SearchApiUrl := "https://api.github.com/search/repositories"

  // ---------------------------------------------------------------------------
  // Reports as the JSON values that are dumped

  /** A list report as a JSON array of objects. */
  function RecordsValue(repos: Report): (v: Value)
    ensures v.Arr? && |v.items| == |repos|
    ensures forall i :: 0 <= i < |repos| ==> v.items[i] == Obj(repos[i])
  {
    Arr(seq(|repos|, i requires 0 <= i < |repos| => Obj(repos[i])))
  }

  /** The category report as a JSON object of arrays, keys in the same order. */
  function CategoriesValue(cats: CategoryReport): (v: Value)
    ensures v.Obj? && v.fields.keys == cats.keys
    ensures v.fields.entries.Keys == cats.entries.Keys
    ensures forall k :: k in cats.entries ==> v.fields.entries[k] == RecordsValue(cats.entries[k])
  {
    Obj(Dict(cats.keys, map k | k in cats.entries :: RecordsValue(cats.entries[k])))
  }

  // ---------------------------------------------------------------------------
  // Counts

  /** `sum(len(repos) for repos in category_repos.values())` */
  function TotalCount(keys: seq<string>, entries: map<string, Report>): nat {
    if keys == [] then 0
    else
      var k := keys[|keys| - 1];
      TotalCount(keys[..|keys| - 1], entries) + (if k in entries then |entries[k]| else 0)
  }

  /** All records of the category report, category after category. */
  function Flatten(keys: seq<string>, entries: map<string, Report>): Report {
    if keys == [] then []
    else
      var k := keys[|keys| - 1];
      Flatten(keys[..|keys| - 1], entries) + (if k in entries then entries[k] else [])
  }

  /** The category count is the number of records over all categories. */
  lemma {:induction false} TotalCountFlattens(keys: seq<string>, entries: map<string, Report>)
    ensures TotalCount(keys, entries) == |Flatten(keys, entries)|
  {
    if keys != [] {
      TotalCountFlattens(keys[..|keys| - 1], entries);
    }
  }

  /** The number of repository records a dumped `repositories` value holds. */
  function RecordCount(v: Value): nat {
    match v
    case Arr(items) => |items|
    case Obj(d) => ArrayLengths(d.keys, d.entries)
    case _ => 0
  }

  /** The summed lengths of the arrays under `keys`. */
  function ArrayLengths(keys: seq<string>, entries: map<string, Value>): nat {
    if keys == [] then 0
    else
      var k := keys[|keys| - 1];
      ArrayLengths(keys[..|keys| - 1], entries)
        + (if k in entries && entries[k].Arr? then |entries[k].items| else 0)
  }

  lemma {:induction false} CategoriesValueCount(keys: seq<string>, cats: CategoryReport)
    ensures ArrayLengths(keys, CategoriesValue(cats).fields.entries) == TotalCount(keys, cats.entries)
  {
    if keys != [] {
      CategoriesValueCount(keys[..|keys| - 1], cats);
    }
  }

  /** Counting the dumped category object gives the summed per-category lengths. */
  lemma CategoriesRecordCount(cats: CategoryReport)
    ensures RecordCount(CategoriesValue(cats)) == TotalCount(cats.keys, cats.entries)
  {
    CategoriesValueCount(cats.keys, cats);
  }

  // ---------------------------------------------------------------------------
  // Metadata

  /** The block `save_json` falls back to: update time, source and API URL. */
  function DefaultMetadata(now: string): Dict<Value> {
    Dict(["updated_at", "source", "api_url"],
      map["updated_at" := Str(now), "source" := Str(SourceLabel), "api_url" := Str(SearchApiUrl)])
  }

  /** The metadata of a list snapshot, with `count` the number of records. */
  function ListMetadata(updateTime: string, description: string, repos: Report): (m: Dict<Value>)
    ensures m.keys == ["updated_at", "source", "api_url", "description", "count"]
    ensures m.entries.Keys == {"updated_at", "source", "api_url", "description", "count"}
    ensures m.entries["updated_at"] == Str(updateTime) && m.entries["description"] == Str(description)
    ensures m.entries["source"] == Str(SourceLabel) && m.entries["api_url"] == Str(SearchApiUrl)
    ensures m.entries["count"] == Int(|repos|)
  {
    Dict(["updated_at", "source", "api_url", "description", "count"],
      map[
        "updated_at" := Str(updateTime),
        "source" := Str(SourceLabel),
        "api_url" := Str(SearchApiUrl),
        "description" := Str(description),
        "count" := Int(|repos|)
      ])
  }

  /**
   * The metadata of the category snapshot: `categories` lists the report's
   * labels in order, `count` sums the per-category lengths.
   */
  function CategoryMetadata(updateTime: string, description: string, cats: CategoryReport): (m: Dict<Value>)
    ensures m.keys == ["updated_at", "source", "api_url", "description", "categories", "count"]
    ensures m.entries.Keys == {"updated_at", "source", "api_url", "description", "categories", "count"}
    ensures m.entries["updated_at"] == Str(updateTime) && m.entries["description"] == Str(description)
    ensures m.entries["source"] == Str(SourceLabel) && m.entries["api_url"] == Str(SearchApiUrl)
    ensures m.entries["categories"] == KeyList(cats.keys)
    ensures m.entries["count"] == Int(|Flatten(cats.keys, cats.entries)|)
  {
    TotalCountFlattens(cats.keys, cats.entries);
    Dict(["updated_at", "source", "api_url", "description", "categories", "count"],
      map[
        "updated_at" := Str(updateTime),
        "source" := Str(SourceLabel),
        "api_url" := Str(SearchApiUrl),
        "description" := Str(description),
        "categories" := KeyList(cats.keys),
        "count" := Int(TotalCount(cats.keys, cats.entries))
      ])
  }

  // ---------------------------------------------------------------------------
  // The envelope

  /** `metadata or {...}`: a dict is truthy when it is given and not empty. */
  predicate MetadataGiven(metadata: Option<Dict<Value>>) {
    metadata.Some? && metadata.value.keys != []
  }

  /** The object `save_json(data, filepath, metadata)` dumps, taking `now` as the current time. */
  function SaveJson(data: Value, metadata: Option<Dict<Value>>, now: string): (out: Dict<Value>)
    ensures out.Valid() && out.keys == ["metadata", "repositories"]
    // the data is stored unchanged, list or mapping alike
    ensures out.entries["repositories"] == data
    ensures MetadataGiven(metadata) ==> out.entries["metadata"] == Obj(metadata.value)
    ensures !MetadataGiven(metadata) ==> out.entries["metadata"] == Obj(DefaultMetadata(now))
  {
    var block := if MetadataGiven(metadata) then metadata.value else DefaultMetadata(now);
    var out := EmptyDict().Set("metadata", Obj(block)).Set("repositories", data);
    EmptyDict<Value>().SetValid("metadata", Obj(block));
    EmptyDict().Set("metadata", Obj(block)).SetValid("repositories", data);
    out
  }

  /** The `count` in a snapshot's metadata is the number of records it stores. */
  ghost predicate CountConsistent(snapshot: Dict<Value>) {
    && "metadata" in snapshot.entries && "repositories" in snapshot.entries
    && snapshot.entries["metadata"].Obj?
    && "count" in snapshot.entries["metadata"].fields.entries
    && snapshot.entries["metadata"].fields.entries["count"]
       == Int(RecordCount(snapshot.entries["repositories"]))
  }

  /** A list snapshot's count is its length. */
  lemma ListSnapshotConsistent(repos: Report, updateTime: string, description: string, now: string)
    ensures CountConsistent(SaveJson(RecordsValue(repos), Some(ListMetadata(updateTime, description, repos)), now))
  {
  }

  /** The category snapshot's count is the sum of the category lengths. */
  lemma CategorySnapshotConsistent(cats: CategoryReport, updateTime: string, description: string, now: string)
    ensures CountConsistent(SaveJson(CategoriesValue(cats), Some(CategoryMetadata(updateTime, description, cats)), now))
  {
    CategoriesRecordCount(cats);
    TotalCountFlattens(cats.keys, cats.entries);
  }
}
