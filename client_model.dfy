/** The resource records the client pages receive from the back end, as the
    pages read them: a JSON object with an optional tag list, an optional
    category object and a creation time the pages turn into a local day. */
module ClientModel {

  import opened Wrappers
  import opened Js

  datatype Tag = Tag(name: string)

  /** A local calendar day; `month` counts from 0, as `Date.getMonth` does. */
  datatype Date = Date(year: int, month: int, day: int)

  /** The order of days: by year, then month, then day. */
  predicate DayLe(a: Date, b: Date)
  {
    || a.year < b.year
    || (a.year == b.year && (a.month < b.month || (a.month == b.month && a.day <= b.day)))
  }

  lemma DayLeAntisymmetric(a: Date, b: Date)
    requires DayLe(a, b) && DayLe(b, a)
    ensures a == b
  {
  }

  /** A resource as the list, calendar and form pages see it. `kind` is the
      `type` field; `content`, `categoryId` and `category` are whatever
      JSON the server sent; `tags` is `None` when the field is missing. */
  datatype Resource = Resource(
    id: int,
    title: string,
    kind: Value,
    content: Value,
    categoryId: Value,
    category: Value,
    tags: Option<seq<Tag>>,
    createdAt: Date)

  /** The names of a tag list, in order. */
  function Names(tags: seq<Tag>): (r: seq<string>)
    ensures |r| == |tags| && forall i :: 0 <= i < |tags| ==> r[i] == tags[i].name
  {
    seq(|tags|, i requires 0 <= i < |tags| => tags[i].name)
  }

  /** `resource.tags?.map(t => t.name) || []`: the names as a JSON array,
      the empty array when the resource has no tag list. */
  function TagNames(tags: Option<seq<Tag>>): (r: Value)
    ensures r.Arr?
    ensures tags.None? ==> r == Arr([])
    ensures tags.Some? ==>
      && |r.items| == |tags.value|
      && (forall i :: 0 <= i < |tags.value| ==> r.items[i] == Str(tags.value[i].name))
  {
    if tags.None? then Arr([])
    else Arr(seq(|tags.value|, i requires 0 <= i < |tags.value| => Str(tags.value[i].name)))
  }

  /** `resources.find(r => r.id === id)`: the first resource with that id. */
  function Find(rs: seq<Resource>, id: int): (r: Option<Resource>)
    ensures r.None? <==> forall k :: 0 <= k < |rs| ==> rs[k].id != id
    ensures r.Some? ==> r.value in rs && r.value.id == id
  {
    if |rs| == 0 then None
    else if rs[0].id == id then Some(rs[0])
    else
      var r := Find(rs[1..], id);
      assert forall k :: 1 <= k < |rs| ==> rs[k] == rs[1..][k - 1];
      r
  }

  /** What `Find` returns is the resource at the first position with that id. */
  lemma {:induction false} FindIsFirst(rs: seq<Resource>, id: int)
    requires Find(rs, id).Some?
    ensures exists k :: 0 <= k < |rs| && rs[k] == Find(rs, id).value && forall j :: 0 <= j < k ==> rs[j].id != id
  {
    if rs[0].id == id {
      assert rs[0] == Find(rs, id).value;
    } else {
      FindIsFirst(rs[1..], id);
      var k :| 0 <= k < |rs[1..]| && rs[1..][k] == Find(rs[1..], id).value && forall j :: 0 <= j < k ==> rs[1..][j].id != id;
      assert rs[k + 1] == Find(rs, id).value;
      forall j | 0 <= j < k + 1 ensures rs[j].id != id {
        if j > 0 { assert rs[j] == rs[1..][j - 1]; }
      }
    }
  }
}
