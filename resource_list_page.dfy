/** The logic of the resource list page: file links, the image test, the
    list of all tags, and the combined filter (category, tag, day range and
    search). */
module ResourceListPage {

  import opened Wrappers
  import opened Text
  import opened Js
  import opened Seqs
  import opened Sorting
  import opened ClientModel

  // ------------------------------------------------------------ file links

  const DefaultBaseUrl := "http://localhost:3000"

  /** `import.meta.env.VITE_API_URL || "http://localhost:3000"`. */
  function BaseUrl(env: Option<string>): (b: string)
    ensures env.Some? && env.value != "" ==> b == env.value
    ensures env.None? || env.value == "" ==> b == DefaultBaseUrl
  {
    if env.Some? && env.value != "" then env.value else DefaultBaseUrl
  }

  predicate IsAbsolute(u: string)
  {
    StartsWith(u, "http://") || StartsWith(u, "https://")
  }

  /** `getFileUrl`: `null` for a missing or empty path, an absolute URL as it
      is, and any other path appended to the base with one `/` between. */
  function GetFileUrl(fileUrl: Option<string>, env: Option<string>): (r: Option<string>)
    ensures r.None? <==> fileUrl.None? || fileUrl.value == ""
    ensures r.Some? && IsAbsolute(fileUrl.value) ==> r.value == fileUrl.value
    ensures r.Some? && !IsAbsolute(fileUrl.value) ==>
      var base, u := BaseUrl(env), fileUrl.value;
      && StartsWith(r.value, base + "/")
      && EndsWith(r.value, u)
      && |r.value| == |base| + |u| + (if u[0] == '/' then 0 else 1)
  {
    if fileUrl.None? || fileUrl.value == "" then None
    else
      var u := fileUrl.value;
      if IsAbsolute(u) then Some(u)
      else
        var normalized := if StartsWith(u, "/") then u else "/" + u;
        var r := BaseUrl(env) + normalized;
        assert r[..|BaseUrl(env)| + 1] == BaseUrl(env) + "/";
        Some(r)
  }

  /** With an absolute base, a link built once is left alone when built again. */
  lemma GetFileUrlIdempotent(fileUrl: Option<string>, env: Option<string>)
    requires IsAbsolute(BaseUrl(env))
    requires GetFileUrl(fileUrl, env).Some?
    ensures GetFileUrl(GetFileUrl(fileUrl, env), env) == GetFileUrl(fileUrl, env)
  {
    var base := BaseUrl(env);
    var r := GetFileUrl(fileUrl, env).value;
    if !IsAbsolute(fileUrl.value) {
      assert r[..|base|] == base;
      if StartsWith(base, "http://") {
        assert r[..7] == base[..7];
      } else {
        assert r[..8] == base[..8];
      }
    }
  }

  // ------------------------------------------------------------ image test

  const ImageExtensions: seq<string> := [".jpg", ".jpeg", ".png", ".gif", ".webp", ".svg"]

  /** `isImageFile`: false for a missing or empty name, otherwise whether the
      lower-cased name ends with one of the image extensions. */
  function IsImageFile(fileName: Option<string>): (b: bool)
    ensures b <==>
      && fileName.Some? && fileName.value != ""
      && exists k :: 0 <= k < |ImageExtensions| && EndsWith(Lower(fileName.value), ImageExtensions[k])
  {
    if fileName.None? || fileName.value == "" then false
    else exists k | 0 <= k < |ImageExtensions| :: EndsWith(Lower(fileName.value), ImageExtensions[k])
  }

  /** The test ignores case: a name and its lower-case form get the same answer. */
  lemma IsImageFileIgnoresCase(name: string)
    ensures IsImageFile(Some(name)) == IsImageFile(Some(Lower(name)))
  {
    LowerIdempotent(name);
  }

  // ------------------------------------------------------------- all tags

  /** Some resource carries a tag with this name. */
  predicate TagOccurs(rs: seq<Resource>, name: string)
  {
    exists k :: 0 <= k < |rs| && HasTag(rs[k], name)
  }

  /** The resource carries a tag of exactly this name. */
  predicate HasTag(r: Resource, name: string)
  {
    r.tags.Some? && exists j :: 0 <= j < |r.tags.value| && r.tags.value[j].name == name
  }

  /** `allTags`: the names of all tags on all resources, once each, sorted. */
  method AllTags(rs: seq<Resource>) returns (tags: seq<string>)
    ensures forall t :: t in tags <==> TagOccurs(rs, t)
    ensures NoDuplicates(tags)
    ensures SortedAsc(tags, (t: string) => t)
  {
    var tagSet: set<string> := {};
    for k := 0 to |rs|
      invariant forall t :: t in tagSet <==> TagOccurs(rs[..k], t)
    {
      if rs[k].tags.Some? {
        var ts := rs[k].tags.value;
        for j := 0 to |ts|
          invariant forall t :: t in tagSet <==>
            TagOccurs(rs[..k], t) || exists i :: 0 <= i < j && ts[i].name == t
        {
          tagSet := tagSet + {ts[j].name};
        }
      }
      assert forall t :: TagOccurs(rs[..k + 1], t) <==> TagOccurs(rs[..k], t) || HasTag(rs[k], t) by {
        forall t ensures TagOccurs(rs[..k + 1], t) <==> TagOccurs(rs[..k], t) || HasTag(rs[k], t) {
          if TagOccurs(rs[..k + 1], t) {
            var m :| 0 <= m < k + 1 && HasTag(rs[..k + 1][m], t);
            if m < k { assert rs[..k][m] == rs[..k + 1][m]; }
          }
          if TagOccurs(rs[..k], t) {
            var m :| 0 <= m < k && HasTag(rs[..k][m], t);
            assert rs[..k + 1][m] == rs[..k][m];
          }
          if HasTag(rs[k], t) {
            assert rs[..k + 1][k] == rs[k];
          }
        }
      }
    }
    assert rs[..|rs|] == rs;
    // `Array.from(tagSet).sort()`
    var key := (t: string) => t;
    var remaining := tagSet;
    tags := [];
    while remaining != {}
      invariant remaining <= tagSet
      invariant forall t :: t in tags <==> t in tagSet && t !in remaining
      invariant forall t :: multiset(tags)[t] <= 1
      invariant SortedAsc(tags, key)
      decreases |remaining|
    {
      var t := Pick(remaining);
      tags := InsertAsc(t, tags, key);
      remaining := remaining - {t};
    }
    NoDuplicatesFromMultiset(tags);
  }

  // --------------------------------------------------------------- filters

  /** The page's filter state: the selected category id and tag (`null` is
      `None`), the start and end days (an empty input is `None`) and the text
      typed in the search box. */
  datatype Filters = Filters(
    categoryId: Option<int>,
    tag: Option<string>,
    startDate: Option<Date>,
    endDate: Option<Date>,
    query: string)

  predicate MatchesCategory(r: Resource, f: Filters)
  {
    f.categoryId.None? || r.categoryId == Num(f.categoryId.value)
  }

  predicate MatchesTag(r: Resource, f: Filters)
  {
    f.tag.None? || HasTag(r, f.tag.value)
  }

  /** Both ends of the range are whole days, the end day included. */
  predicate MatchesDate(r: Resource, f: Filters)
  {
    && (f.startDate.None? || DayLe(f.startDate.value, r.createdAt))
    && (f.endDate.None? || DayLe(r.createdAt, f.endDate.value))
  }

  /** `v?.toLowerCase().includes(q)` for a field that is a string. */
  predicate TextIncludes(v: Value, q: string)
  {
    v.Str? && Contains(Lower(v.s), q)
  }

  /** Some searched field contains `q` once lower-cased. */
  predicate SearchHit(r: Resource, q: string)
  {
    || Contains(Lower(r.title), q)
    || TextIncludes(Prop(r.content, "description"), q)
    || TextIncludes(Prop(r.content, "url"), q)
    || TextIncludes(Prop(r.content, "originalName"), q)
    || TextIncludes(Prop(r.category, "name"), q)
    || (r.tags.Some? && exists j :: 0 <= j < |r.tags.value| && Contains(Lower(r.tags.value[j].name), q))
  }

  /** The search runs only when the trimmed query is not empty, and then
      with the lower-cased query as typed, surrounding blanks included. */
  predicate MatchesSearch(r: Resource, f: Filters)
  {
    Trim(f.query) == "" || SearchHit(r, Lower(f.query))
  }

  predicate Matches(r: Resource, f: Filters)
  {
    MatchesCategory(r, f) && MatchesTag(r, f) && MatchesDate(r, f) && MatchesSearch(r, f)
  }

  /** `filteredResources`: the resources every active filter accepts, in
      their original order, each as often as in the input. */
  function FilteredResources(rs: seq<Resource>, f: Filters): (r: seq<Resource>)
    ensures IsSubsequence(r, rs)
    ensures forall x :: x in r <==> x in rs && Matches(x, f)
    ensures forall x :: multiset(r)[x] == if Matches(x, f) then multiset(rs)[x] else 0
  {
    var p := (x: Resource) => Matches(x, f);
    FilterIsSubsequence(rs, p);
    forall x ensures multiset(Filter(rs, p))[x] == if p(x) then multiset(rs)[x] else 0 {
      FilterMultiset(rs, p, x);
    }
    Filter(rs, p)
  }

  /** With no category, no tag, no days and a blank query, nothing is hidden. */
  lemma NoFiltersKeepAll(rs: seq<Resource>, f: Filters)
    requires f.categoryId.None? && f.tag.None? && f.startDate.None? && f.endDate.None?
    requires AllSpace(f.query)
    ensures FilteredResources(rs, f) == rs
  {
    TrimEmptyIffAllSpace(f.query);
    FilterKeepsAll(rs, (x: Resource) => Matches(x, f));
  }

  /** Selecting a category, a tag or a day bound only ever hides more: the
      result is a subsequence of the result without it. */
  lemma {:induction false} NarrowingHidesMore(rs: seq<Resource>, f: Filters, g: Filters)
    requires g.query == f.query
    requires f.categoryId.None? || g.categoryId == f.categoryId
    requires f.tag.None? || g.tag == f.tag
    requires f.startDate.None? || g.startDate == f.startDate
    requires f.endDate.None? || g.endDate == f.endDate
    ensures IsSubsequence(FilteredResources(rs, g), FilteredResources(rs, f))
  {
    FilterStronger(rs, (x: Resource) => Matches(x, g), (x: Resource) => Matches(x, f));
  }

  /** A range whose start and end are the same day keeps exactly the
      resources created that day. */
  lemma SingleDayRange(r: Resource, f: Filters, d: Date)
    requires f.startDate == Some(d) && f.endDate == Some(d)
    ensures MatchesDate(r, f) <==> r.createdAt == d
  {
    if MatchesDate(r, f) {
      DayLeAntisymmetric(r.createdAt, d);
    }
  }

  /** The query is not trimmed before matching: a title `ab` is found by
      `ab` but not by `ab ` with a trailing blank. */
  lemma {:induction false} TrailingBlankMisses(r: Resource)
    requires r.title == "ab" && r.content == Null && r.category == Null && r.tags.None?
    ensures SearchHit(r, Lower("ab"))
    ensures !SearchHit(r, Lower("ab "))
  {
    assert Lower("ab") == "ab";
    assert OccursAt(Lower(r.title), "ab", 0);
    assert |Lower("ab ")| == 3;
  }
}
