/**
 * `format_repo_data`: the projection of a raw repository object onto the
 * fixed record the snapshots store.
 */
module Format {
  import opened Json
  import opened Search

  /** A formatted repository record (a dict, in insertion order). */
  type Record = Dict<Value>

  /** One field of the record: its key, the raw key it is read from, its default. */
  datatype Field = Field(key: string, source: string, default: Value)

  /** The nine fields, in the order the record lists them. */
  const Fields: seq<Field> := [
    Field("name", "full_name", Str("")),
    Field("html_url", "html_url", Str("")),
    Field("description", "description", Str("")),
    Field("stargazers_count", "stargazers_count", Int(0)),
    Field("forks_count", "forks_count", Int(0)),
    Field("language", "language", Str("")),
    Field("updated_at", "updated_at", Str("")),
    Field("created_at", "created_at", Str("")),
    Field("topics", "topics", Arr([]))
  ]

  const RecordKeys: seq<string> := [
    "name", "html_url", "description", "stargazers_count", "forks_count",
    "language", "updated_at", "created_at", "topics"
  ]

  const AffiliateKey := "affiliate_link"

  /** `if affiliate_link:` — given, and not the empty string. */
  predicate AffiliateGiven(link: Option<string>) {
    link.Some? && link.value != ""
  }

  /** The keys a formatted record has, in order. */
  function FormattedKeys(link: Option<string>): seq<string> {
    RecordKeys + (if AffiliateGiven(link) then [AffiliateKey] else [])
  }

  /** The keys of a field list, in order. */
  function KeysOf(fields: seq<Field>): (ks: seq<string>)
    ensures |ks| == |fields| && forall i :: 0 <= i < |fields| ==> ks[i] == fields[i].key
  {
    seq(|fields|, i requires 0 <= i < |fields| => fields[i].key)
  }

  /** Dropping the last field drops the last key. */
  lemma KeysOfInit(fields: seq<Field>)
    requires fields != []
    ensures KeysOf(fields[..|fields| - 1]) == KeysOf(fields)[..|fields| - 1]
  {
  }

  lemma {:induction false} DistinctHasNoDuplicates(ks: seq<string>)
    requires forall i, j :: 0 <= i < j < |ks| ==> ks[i] != ks[j]
    ensures NoDuplicates(ks)
    decreases |ks|
  {
    if ks != [] {
      DistinctHasNoDuplicates(ks[..|ks| - 1]);
    }
  }

  lemma FieldsKeys()
    ensures KeysOf(Fields) == RecordKeys
    ensures NoDuplicates(RecordKeys)
    ensures AffiliateKey !in RecordKeys
  {
    forall i, j | 0 <= i < j < |RecordKeys|
      ensures RecordKeys[i] != RecordKeys[j]
    {
      assert |RecordKeys[i]| != |RecordKeys[j]| || RecordKeys[i][0] != RecordKeys[j][0];
    }
    DistinctHasNoDuplicates(RecordKeys);
  }

  /** Field `f` of record `r` holds the raw value under `f.source`, or `f.default` without one. */
  ghost predicate Projects(repo: RawRepo, r: Record, f: Field) {
    f.key in r.entries && r.entries[f.key] == Get(repo, f.source, f.default)
  }

  /**
   * The dict display `{f.key: repo.get(f.source, f.default) for f in fields}`:
   * the entries are inserted one after the other.
   */
  function Project(repo: RawRepo, fields: seq<Field>): (r: Record)
  {
    if fields == [] then EmptyDict()
    else
      var f := fields[|fields| - 1];
      Project(repo, fields[..|fields| - 1]).Set(f.key, Get(repo, f.source, f.default))
  }

  /** With distinct keys, the display lists exactly the fields' keys, in order. */
  lemma {:induction false} ProjectKeys(repo: RawRepo, fields: seq<Field>)
    requires NoDuplicates(KeysOf(fields))
    ensures Project(repo, fields).Valid()
    ensures Project(repo, fields).keys == KeysOf(fields)
  {
    if fields != [] {
      var n := |fields| - 1;
      var init := fields[..n];
      var ks := KeysOf(fields);
      KeysOfInit(fields);
      ProjectKeys(repo, init);
      var prev := Project(repo, init);
      assert fields[n].key !in prev.entries;
      prev.SetValid(fields[n].key, Get(repo, fields[n].source, fields[n].default));
    }
  }

  /** With distinct keys, the display projects every field. */
  lemma {:induction false} ProjectValues(repo: RawRepo, fields: seq<Field>)
    requires NoDuplicates(KeysOf(fields))
    ensures forall i :: 0 <= i < |fields| ==> Projects(repo, Project(repo, fields), fields[i])
  {
    if fields != [] {
      var n := |fields| - 1;
      var init := fields[..n];
      var ks := KeysOf(fields);
      KeysOfInit(fields);
      ProjectValues(repo, init);
      var prev := Project(repo, init);
      var last := fields[n];
      var r := prev.Set(last.key, Get(repo, last.source, last.default));
      assert r == Project(repo, fields);
      assert last.key !in ks[..n];
      forall i | 0 <= i < n
        ensures Projects(repo, r, fields[i])
      {
        assert init[i] == fields[i];
        assert ks[..n][i] == fields[i].key;
        assert Projects(repo, prev, init[i]);
      }
      assert Projects(repo, r, last);
    }
  }

  /** The dict display of `format_repo_data`, before the affiliate link. */
  function BaseRecord(repo: RawRepo): (r: Record)
    ensures r.Valid() && r.keys == RecordKeys && AffiliateKey !in r.entries
    ensures forall i :: 0 <= i < |Fields| ==> Projects(repo, r, Fields[i])
  {
    FieldsKeys();
    ProjectKeys(repo, Fields);
    ProjectValues(repo, Fields);
    Project(repo, Fields)
  }

  /** `format_repo_data(repo, affiliate_link)` */
  function FormatRepoData(repo: RawRepo, link: Option<string>): (r: Record)
    ensures r.Valid()
    // exactly the nine keys, then the affiliate link if one is given; nothing else
    ensures r.keys == FormattedKeys(link)
    ensures forall k :: k in r.entries <==> k in FormattedKeys(link)
    // each field is the raw value when the raw key is present, its default otherwise
    ensures forall i :: 0 <= i < |Fields| ==>
      var f := Fields[i];
      && (f.source in repo ==> r.entries[f.key] == repo[f.source])
      && (f.source !in repo ==> r.entries[f.key] == f.default)
    ensures AffiliateKey in r.entries <==> AffiliateGiven(link)
    ensures AffiliateGiven(link) ==> r.entries[AffiliateKey] == Str(link.value)
  {
    var data := BaseRecord(repo);
    if AffiliateGiven(link) then
      data.SetValid(AffiliateKey, Str(link.value));
      data.Set(AffiliateKey, Str(link.value))
    else data
  }

  /** `a` and `b` agree on the raw key `source`: both lack it, or both hold the same value. */
  ghost predicate AgreeOn(a: RawRepo, b: RawRepo, source: string) {
    (source in a <==> source in b) && (source in a ==> a[source] == b[source])
  }

  lemma {:induction false} ProjectReadsOnlySources(a: RawRepo, b: RawRepo, fields: seq<Field>)
    requires forall i :: 0 <= i < |fields| ==> AgreeOn(a, b, fields[i].source)
    ensures Project(a, fields) == Project(b, fields)
  {
    if fields != [] {
      var n := |fields| - 1;
      assert forall i :: 0 <= i < n ==> fields[..n][i] == fields[i];
      ProjectReadsOnlySources(a, b, fields[..n]);
      assert AgreeOn(a, b, fields[n].source);
    }
  }

  /** Two raw objects that agree on the nine source keys format alike: no other field leaks in. */
  lemma FormatReadsOnlyFields(a: RawRepo, b: RawRepo, link: Option<string>)
    requires forall i :: 0 <= i < |Fields| ==> AgreeOn(a, b, Fields[i].source)
    ensures FormatRepoData(a, link) == FormatRepoData(b, link)
  {
    ProjectReadsOnlySources(a, b, Fields);
  }
}
