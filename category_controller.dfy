/** The category controller: a table of categories keyed by id whose names
    are unique, with a sorted listing and a create that rejects empty and
    duplicate names. */
module CategoryController {

  import opened Wrappers
  import opened Text
  import opened Sorting
  import opened Seqs

  const NameRequiredMessage := "Le nom est requis"
  const DuplicateMessage := "Cette catégorie existe déjà"

  datatype Category = Category(id: int, name: string)

  /** `cs` lists the rows: every listed category is the row for its id,
      every row is listed, and there are as many items as rows. */
  predicate IsListing(cs: seq<Category>, rows: map<int, Category>)
  {
    && |cs| == |rows|
    && (forall c :: c in cs ==> c.id in rows && rows[c.id] == c)
    && (forall id :: id in rows ==> rows[id] in cs)
  }

  /** `cs` lists the rows whose ids are in `done`. */
  predicate PartialListing(cs: seq<Category>, rows: map<int, Category>, done: set<int>)
  {
    && |cs| == |done|
    && (forall c :: c in cs ==> c.id in done && c.id in rows && rows[c.id] == c)
    && (forall k :: k in done ==> k in rows && rows[k] in cs)
  }

  /** The sort key of the listing. */
  function NameOf(x: Category): string
  {
    x.name
  }

  /** Inserting the row of one more id into a sorted partial listing of
      `done` gives a sorted partial listing of `done` and that id. */
  lemma InsertGrowsListing(rows: map<int, Category>, done: set<int>, before: seq<Category>, id: int)
    requires id in rows && id !in done && rows[id].id == id
    requires PartialListing(before, rows, done) && SortedAsc(before, NameOf)
    ensures SortedAsc(InsertAsc(rows[id], before, NameOf), NameOf)
    ensures PartialListing(InsertAsc(rows[id], before, NameOf), rows, done + {id})
  {
    var after := InsertAsc(rows[id], before, NameOf);
    assert |after| == |multiset(after)| == |multiset(before)| + 1 == |before| + 1;
    assert |done + {id}| == |done| + 1;
  }

  class CategoryTable {
    var rows: map<int, Category>
    /** The id the database will give the next category. */
    var nextId: int

    ghost predicate Valid()
      reads this
    {
      && (forall id :: id in rows ==> rows[id].id == id && id < nextId)
      && (forall i, j :: i in rows && j in rows && rows[i].name == rows[j].name ==> i == j)
    }

    constructor ()
      ensures Valid() && rows == map[]
    {
      rows := map[];
      nextId := 1;
    }

    /** Some stored category has this name (the unique constraint). */
    predicate NameTaken(name: string)
      reads this
    {
      exists id | id in rows :: rows[id].name == name
    }

    /** `GET /api/categories`: all categories by ascending name. */
    method GetAllCategories() returns (cs: seq<Category>)
      requires Valid()
      ensures IsListing(cs, rows)
      ensures SortedAsc(cs, NameOf)
    {
      var remaining := rows.Keys;
      ghost var done: set<int> := {};
      cs := [];
      while remaining != {}
        invariant remaining <= rows.Keys && done == rows.Keys - remaining
        invariant SortedAsc(cs, NameOf)
        invariant PartialListing(cs, rows, done)
        decreases |remaining|
      {
        var id := Pick(remaining);
        InsertGrowsListing(rows, done, cs, id);
        cs := InsertAsc(rows[id], cs, NameOf);
        remaining := remaining - {id};
        done := done + {id};
      }
      assert done == rows.Keys;
    }

    /** `POST /api/categories`: a missing or empty name is a 400, an existing
        name is a 400 that changes nothing, otherwise a 201 with the new row. */
    method CreateCategory(name: Option<string>) returns (reply: Reply<Category>)
      requires Valid()
      modifies this
      ensures Valid()
      ensures reply.Ok? <==> name.Some? && name.value != "" && !old(NameTaken(name.value))
      ensures (name.None? || name.value == "") ==>
        reply == Error(400, NameRequiredMessage) && rows == old(rows) && nextId == old(nextId)
      ensures name.Some? && name.value != "" && old(NameTaken(name.value)) ==>
        reply == Error(400, DuplicateMessage) && rows == old(rows) && nextId == old(nextId)
      ensures reply.Ok? ==>
        && reply == Ok(201, Category(old(nextId), name.value))
        && old(nextId) !in old(rows)
        && rows == old(rows)[old(nextId) := reply.value]
    {
      if name.None? || name.value == "" {
        return Error(400, NameRequiredMessage);
      }
      if NameTaken(name.value) {
        return Error(400, DuplicateMessage);
      }
      var c := Category(nextId, name.value);
      rows := rows[nextId := c];
      nextId := nextId + 1;
      reply := Ok(201, c);
    }
  }

  /** With unique names the ascending listing is strictly ascending: no name
      is listed twice. */
  lemma {:induction false} ListingNamesDistinct(cs: seq<Category>, rows: map<int, Category>, i: int, j: int)
    requires IsListing(cs, rows)
    requires forall a, b :: a in rows && b in rows && rows[a].name == rows[b].name ==> a == b
    requires 0 <= i < |cs| && 0 <= j < |cs| && cs[i].name == cs[j].name
    ensures cs[i] == cs[j]
  {
    assert cs[i] in cs && cs[j] in cs;
  }
}
