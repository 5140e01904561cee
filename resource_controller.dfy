/** The resource controller of the back end in its early form: a table of
    resources keyed by id, with create, list, get, update and delete. The
    owner id comes from the request body; nothing is filtered by owner. */
module ResourceController {

  import opened Wrappers
  import opened Js
  import opened Sorting
  import opened Seqs

  const NotFoundMessage := "Ressource non trouvée"
  const DeletedMessage := "Ressource supprimée avec succès"

  /** One row of the resource table; `kind` is the `type` column and
      `createdAt` the database's creation time, as a number of clock ticks. */
  datatype Resource = Resource(id: int, title: string, kind: string, content: Value, userId: int, createdAt: int)

  /** The body of a create request, with `userId` already read by `parseInt`. */
  datatype CreateBody = CreateBody(title: string, kind: string, content: Value, userId: int)

  /** The body of an update request. `None` is a field the body leaves out;
      the database leaves such a field unchanged. */
  datatype UpdateBody = UpdateBody(title: Option<string>, kind: Option<string>, content: Option<Value>)

  /** The row `update` writes: the fields the body carries replace the old
      ones, and nothing else changes. */
  function Updated(r: Resource, body: UpdateBody): (u: Resource)
    ensures u.id == r.id && u.userId == r.userId && u.createdAt == r.createdAt
    ensures u.title == (if body.title.Some? then body.title.value else r.title)
    ensures u.kind == (if body.kind.Some? then body.kind.value else r.kind)
    ensures u.content == (if body.content.Some? then body.content.value else r.content)
  {
    var t := if body.title.Some? then body.title.value else r.title;
    var ty := if body.kind.Some? then body.kind.value else r.kind;
    var c := if body.content.Some? then body.content.value else r.content;
    r.(title := t, kind := ty, content := c)
  }

  /** An update body that carries no field does not change the row. */
  lemma UpdatedEmptyBody(r: Resource)
    ensures Updated(r, UpdateBody(None, None, None)) == r
  {
  }

  /** Updating twice with the same body is the same as updating once. */
  lemma UpdatedIdempotent(r: Resource, body: UpdateBody)
    ensures Updated(Updated(r, body), body) == Updated(r, body)
  {
  }

  /** `rs` lists the rows of the table: every listed row is the table's row
      for its id, every row is listed, and there are as many items as rows. */
  predicate IsListing(rs: seq<Resource>, rows: map<int, Resource>)
  {
    && |rs| == |rows|
    && (forall r :: r in rs ==> r.id in rows && rows[r.id] == r)
    && (forall id :: id in rows ==> rows[id] in rs)
  }

  /** `rs` lists the rows whose ids are in `done`. */
  predicate PartialListing(rs: seq<Resource>, rows: map<int, Resource>, done: set<int>)
  {
    && |rs| == |done|
    && (forall r :: r in rs ==> r.id in done && r.id in rows && rows[r.id] == r)
    && (forall k :: k in done ==> k in rows && rows[k] in rs)
  }

  /** The sort key of the listing. */
  function CreatedAt(x: Resource): int
  {
    x.createdAt
  }

  /** Inserting the row of one more id into a sorted partial listing of
      `done` gives a sorted partial listing of `done` and that id. */
  lemma InsertGrowsListing(rows: map<int, Resource>, done: set<int>, before: seq<Resource>, id: int)
    requires id in rows && id !in done && rows[id].id == id
    requires PartialListing(before, rows, done) && SortedDesc(before, CreatedAt)
    ensures SortedDesc(InsertDesc(rows[id], before, CreatedAt), CreatedAt)
    ensures PartialListing(InsertDesc(rows[id], before, CreatedAt), rows, done + {id})
  {
    var after := InsertDesc(rows[id], before, CreatedAt);
    assert |after| == |multiset(after)| == |multiset(before)| + 1 == |before| + 1;
    assert |done + {id}| == |done| + 1;
  }

  class ResourceTable {
    var rows: map<int, Resource>
    /** The id the database will give the next row. */
    var nextId: int

    ghost predicate Valid()
      reads this
    {
      forall id :: id in rows ==> rows[id].id == id && id < nextId
    }

    constructor ()
      ensures Valid() && rows == map[]
    {
      rows := map[];
      nextId := 1;
    }

    /** `POST /api/resources`: stores title, type, content and the body's
        userId as they are, with a fresh id and the current time. */
    method CreateResource(body: CreateBody, now: int) returns (reply: Reply<Resource>)
      requires Valid()
      modifies this
      ensures Valid()
      ensures reply == Ok(201, Resource(old(nextId), body.title, body.kind, body.content, body.userId, now))
      ensures old(nextId) !in old(rows)
      ensures rows == old(rows)[old(nextId) := reply.value]
    {
      var r := Resource(nextId, body.title, body.kind, body.content, body.userId, now);
      rows := rows[nextId := r];
      nextId := nextId + 1;
      reply := Ok(201, r);
    }

    /** `GET /api/resources`: every row, newest first. */
    method GetAllResources() returns (rs: seq<Resource>)
      requires Valid()
      ensures IsListing(rs, rows)
      ensures SortedDesc(rs, CreatedAt)
    {
      var remaining := rows.Keys;
      ghost var done: set<int> := {};
      rs := [];
      while remaining != {}
        invariant remaining <= rows.Keys && done == rows.Keys - remaining
        invariant SortedDesc(rs, CreatedAt)
        invariant PartialListing(rs, rows, done)
        decreases |remaining|
      {
        var id := Pick(remaining);
        InsertGrowsListing(rows, done, rs, id);
        rs := InsertDesc(rows[id], rs, CreatedAt);
        remaining := remaining - {id};
        done := done + {id};
      }
      assert done == rows.Keys;
    }

    /** `GET /api/resources/:id`. */
    function GetResourceById(id: int): (reply: Reply<Resource>)
      reads this
      requires Valid()
      ensures reply.Ok? <==> id in rows
      ensures reply.Ok? ==> reply.status == 200 && reply.value == rows[id] && reply.value.id == id
      ensures reply.Error? ==> reply == Error(404, NotFoundMessage)
    {
      if id in rows then Ok(200, rows[id]) else Error(404, NotFoundMessage)
    }

    /** `PUT /api/resources/:id`: rewrites the fields the body carries in the
        row with that id; a missing id is a 404 and changes nothing. */
    method UpdateResource(id: int, body: UpdateBody) returns (reply: Reply<Resource>)
      requires Valid()
      modifies this
      ensures Valid() && nextId == old(nextId)
      ensures reply.Ok? <==> id in old(rows)
      ensures id in old(rows) ==> reply == Ok(200, Updated(old(rows)[id], body))
      ensures id in old(rows) ==> rows == old(rows)[id := Updated(old(rows)[id], body)]
      ensures id !in old(rows) ==> reply == Error(404, NotFoundMessage) && rows == old(rows)
    {
      if id in rows {
        var u := Updated(rows[id], body);
        rows := rows[id := u];
        reply := Ok(200, u);
      } else {
        reply := Error(404, NotFoundMessage);
      }
    }

    /** `DELETE /api/resources/:id`: removes that row and no other; a
        missing id is a 404 and changes nothing. */
    method DeleteResource(id: int) returns (reply: Reply<string>)
      requires Valid()
      modifies this
      ensures Valid() && nextId == old(nextId)
      ensures reply.Ok? <==> id in old(rows)
      ensures id in old(rows) ==> reply == Ok(200, DeletedMessage) && rows == old(rows) - {id}
      ensures id !in old(rows) ==> reply == Error(404, NotFoundMessage) && rows == old(rows)
    {
      if id in rows {
        rows := rows - {id};
        reply := Ok(200, DeletedMessage);
      } else {
        reply := Error(404, NotFoundMessage);
      }
    }
  }

  /** A resource once created can be read back, and after deleting it the
      same id answers 404; the owner id sent by the client is what is stored. */
  method CreateReadDeleteScenario(table: ResourceTable, now: int)
    requires table.Valid()
    modifies table
  {
    var created := table.CreateResource(CreateBody("Book", "LINK", Obj(map["url" := Str("example.com")]), 42), now);
    var id := created.value.id;
    var read := table.GetResourceById(id);
    assert read == Ok(200, created.value) && read.value.userId == 42;
    var updated := table.UpdateResource(id, UpdateBody(Some("Novel"), None, None));
    assert updated.value.title == "Novel" && updated.value.kind == "LINK";
    var deleted := table.DeleteResource(id);
    assert deleted == Ok(200, DeletedMessage);
    var again := table.GetResourceById(id);
    assert again == Error(404, NotFoundMessage);
    var twice := table.DeleteResource(id);
    assert twice == Error(404, NotFoundMessage);
  }
}
