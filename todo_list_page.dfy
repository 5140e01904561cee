/** The logic of the to-do page: the completion flag, the all / active /
    completed filter, the two toggles that flip one flag in the content and
    send the resource back, and the delete guard. The list page's
    `toggleFavorite` and `handleDelete` are the same code and are modelled
    here once. */
module TodoListPage {

  import opened Wrappers
  import opened Text
  import opened Js
  import opened Seqs
  import opened ClientModel
  import ResourceService

  const DeleteFailedMessage := "Erreur lors de la suppression"

  /** `resource.content?.completed || false`. */
  function GetCompleted(r: Resource): (v: Value)
    ensures Truthy(v) <==> Truthy(Prop(r.content, "completed"))
    ensures !Truthy(v) ==> v == Bool(false)
  {
    Or(Prop(r.content, "completed"), Bool(false))
  }

  /** The title contains the query, both lower-cased. */
  predicate MatchesSearch(r: Resource, query: string)
  {
    Contains(Lower(r.title), Lower(query))
  }

  /** The filter of the page: 'completed' keeps the completed matches,
      'active' the others, any other value every match. */
  predicate Keeps(r: Resource, query: string, filter: string)
  {
    && MatchesSearch(r, query)
    && (filter == "completed" ==> Truthy(GetCompleted(r)))
    && (filter == "active" ==> !Truthy(GetCompleted(r)))
  }

  /** `filteredResources`: the resources the search and the filter keep,
      in their original order, each as often as in the input. */
  function FilteredResources(rs: seq<Resource>, query: string, filter: string): (r: seq<Resource>)
    ensures IsSubsequence(r, rs)
    ensures forall x :: x in r <==> x in rs && Keeps(x, query, filter)
    ensures forall x :: multiset(r)[x] == if Keeps(x, query, filter) then multiset(rs)[x] else 0
  {
    var p := (x: Resource) => Keeps(x, query, filter);
    FilterIsSubsequence(rs, p);
    forall x ensures multiset(Filter(rs, p))[x] == if p(x) then multiset(rs)[x] else 0 {
      FilterMultiset(rs, p, x);
    }
    Filter(rs, p)
  }

  /** The active and the completed lists share no resource and together hold
      each matching resource as often as the full list does. */
  lemma ActiveCompletedPartition(rs: seq<Resource>, query: string)
    ensures multiset(FilteredResources(rs, query, "active")) + multiset(FilteredResources(rs, query, "completed"))
         == multiset(FilteredResources(rs, query, "all"))
    ensures forall x :: x in FilteredResources(rs, query, "active") ==> x !in FilteredResources(rs, query, "completed")
  {
    FilterPartition(rs, (x: Resource) => Keeps(x, query, "all"),
      (x: Resource) => Keeps(x, query, "active"), (x: Resource) => Keeps(x, query, "completed"));
  }

  /** The empty query matches every title, so 'all' shows everything. */
  lemma EmptyQueryShowsAll(rs: seq<Resource>)
    ensures FilteredResources(rs, "", "all") == rs
  {
    forall i | 0 <= i < |rs| ensures Keeps(rs[i], "", "all") {
      ContainsEmpty(Lower(rs[i].title));
    }
    FilterKeepsAll(rs, (x: Resource) => Keeps(x, "", "all"));
  }

  // ---------------------------------------------------------------- toggles

  /** `{ ...content, [flag]: !(content?.[flag] || false) }`: the flag
      becomes the negation of its truthiness, and every field the spread
      copies (an object's fields, a string's characters, an array's items)
      is kept. */
  function Toggled(content: Value, flag: string): (c: Value)
    ensures c.Obj? && flag in c.fields
    ensures c.fields[flag] == Bool(!Truthy(Prop(content, flag)))
    ensures forall k :: k in c.fields && k != flag ==> k in Spread(content) && c.fields[k] == Spread(content)[k]
    ensures forall k :: k in Spread(content) ==> k in c.fields
  {
    Obj(Spread(content)[flag := Bool(!Truthy(Or(Prop(content, flag), Bool(false))))])
  }

  /** Toggling the same flag twice gives the flag back as a boolean and keeps
      every field the spread copies. */
  lemma ToggleTwice(content: Value, flag: string)
    ensures Toggled(Toggled(content, flag), flag) == Obj(Spread(content)[flag := Bool(Truthy(Prop(content, flag)))])
  {
  }

  /** A string content is spread into its characters: toggling `completed`
      on the content `"ab"` sends `{ 0: "a", 1: "b", completed: true }`. */
  lemma ToggleStringContent()
    ensures Toggled(Str("ab"), "completed") == Obj(map["0" := Str("a"), "1" := Str("b"), "completed" := Bool(true)])
  {
    var m := Spread(Str("ab"));
    var spread := map["0" := Str("a"), "1" := Str("b")];
    assert NatToString(0) == "0" && NatToString(1) == "1";
    assert m["0"] == Str(["ab"[0]]) == Str("a");
    assert m["1"] == Str(["ab"[1]]) == Str("b");
    forall k | k in m ensures k in spread && m[k] == spread[k] {
      assert DigitsValue(k) == 0 || DigitsValue(k) == 1;
    }
    assert m == spread;
    assert !AllDigits("completed") by {
      assert !IsDigit("completed"[0]);
    }
  }

  /** An array content is spread into its items: toggling `favorite` on the
      content `[7]` sends `{ 0: 7, favorite: true }`. */
  lemma ToggleArrayContent()
    ensures Toggled(Arr([Num(7)]), "favorite") == Obj(map["0" := Num(7), "favorite" := Bool(true)])
  {
    var m := Spread(Arr([Num(7)]));
    assert NatToString(0) == "0";
    assert "0" in m;
    forall k | k in m ensures k == "0" {
      assert DigitsValue(k) == 0;
    }
    assert m == map["0" := Num(7)];
    assert !AllDigits("favorite") by {
      assert !IsDigit("favorite"[0]);
    }
  }

  /** The body `toggleTodo` and `toggleFavorite` send for the resource with
      that id, or `None` when the page holds no such resource. */
  function TogglePayload(rs: seq<Resource>, id: int, flag: string): (p: Option<Value>)
    ensures p.None? <==> Find(rs, id).None?
    ensures p.Some? ==>
      var r := Find(rs, id).value;
      p.value == Obj(map["title" := Str(r.title), "type" := r.kind, "content" := Toggled(r.content, flag),
                         "categoryId" := r.categoryId, "tags" := TagNames(r.tags)])
  {
    var found := Find(rs, id);
    if found.None? then None
    else
      var r := found.value;
      Some(Obj(map["title" := Str(r.title), "type" := r.kind, "content" := Toggled(r.content, flag),
                   "categoryId" := r.categoryId, "tags" := TagNames(r.tags)]))
  }

  function ToggleTodo(rs: seq<Resource>, id: int): Option<Value>
  {
    TogglePayload(rs, id, "completed")
  }

  function ToggleFavorite(rs: seq<Resource>, id: int): Option<Value>
  {
    TogglePayload(rs, id, "favorite")
  }

  /** A toggle carries no file, so the update goes out as JSON; the JSON body
      holds the flipped content, the other fields as they were, and the tag
      names in order. */
  lemma ToggleSendsJson(rs: seq<Resource>, id: int, flag: string)
    requires TogglePayload(rs, id, flag).Some?
    ensures var p := TogglePayload(rs, id, flag).value;
      var r := Find(rs, id).value;
      var body := ResourceService.JsonUpdateBody(p);
      && !Truthy(Prop(p, "file"))
      && body["content"] == Toggled(r.content, flag)
      && body["title"] == Str(r.title) && body["type"] == r.kind && body["categoryId"] == r.categoryId
      && body["tags"] == TagNames(r.tags)
  {
  }

  /** Completing a to-do: afterwards its completion flag is the negation of
      what `GetCompleted` said before. */
  lemma ToggleTodoFlipsCompleted(rs: seq<Resource>, id: int)
    requires ToggleTodo(rs, id).Some?
    ensures var r := Find(rs, id).value;
      Prop(Prop(ToggleTodo(rs, id).value, "content"), "completed") == Bool(!Truthy(GetCompleted(r)))
  {
  }

  // ----------------------------------------------------------------- delete

  /** The state `handleDelete` works on. */
  class TodoListState {
    var resources: seq<Resource>
    var deletingIds: seq<int>
    var error: string

    constructor (resources: seq<Resource>)
      ensures this.resources == resources && deletingIds == [] && error == ""
    {
      this.resources := resources;
      deletingIds := [];
      error := "";
    }

    /** The synchronous start of `handleDelete(id)`: an id already being
        deleted is ignored and no request goes out; otherwise the id is
        marked as being deleted and the request is sent. */
    method BeginDelete(id: int) returns (requested: bool)
      modifies this
      ensures requested <==> id !in old(deletingIds)
      ensures requested ==> deletingIds == old(deletingIds) + [id]
      ensures !requested ==> deletingIds == old(deletingIds)
      ensures resources == old(resources) && error == old(error)
    {
      if id in deletingIds {
        return false;
      }
      deletingIds := deletingIds + [id];
      requested := true;
      // the request is sent here
    }

    /** The end of `handleDelete(id)`, once the server has answered
        (`succeeded`, and `serverError`, the error text it sent): the id is
        unmarked; on success the resource leaves the list, on failure the
        error is shown. */
    method FinishDelete(id: int, succeeded: bool, serverError: Option<string>)
      modifies this
      ensures deletingIds == Filter(old(deletingIds), (x: int) => x != id)
      ensures id !in deletingIds && forall x :: x in deletingIds <==> x in old(deletingIds) && x != id
      ensures succeeded ==>
        resources == Filter(old(resources), (r: Resource) => r.id != id) && error == old(error)
      ensures !succeeded ==>
        && resources == old(resources)
        && error == (if serverError.Some? && serverError.value != "" then serverError.value else DeleteFailedMessage)
    {
      if succeeded {
        resources := Filter(resources, (r: Resource) => r.id != id);
      } else {
        error := if serverError.Some? && serverError.value != "" then serverError.value else DeleteFailedMessage;
      }
      deletingIds := Filter(deletingIds, (x: int) => x != id);
    }

    /** `handleDelete(id)` when no other click comes in before the server
        answers: the start followed, when a request went out, by the end;
        the marks are then as before. */
    method HandleDelete(id: int, succeeded: bool, serverError: Option<string>) returns (requested: bool)
      modifies this
      ensures requested <==> id !in old(deletingIds)
      ensures !requested ==> resources == old(resources) && deletingIds == old(deletingIds) && error == old(error)
      ensures requested ==> deletingIds == old(deletingIds)
      ensures requested && succeeded ==>
        resources == Filter(old(resources), (r: Resource) => r.id != id) && error == old(error)
      ensures requested && !succeeded ==>
        && resources == old(resources)
        && error == (if serverError.Some? && serverError.value != "" then serverError.value else DeleteFailedMessage)
    {
      ghost var before := deletingIds;
      requested := BeginDelete(id);
      if requested {
        FinishDelete(id, succeeded, serverError);
        var keep := (x: int) => x != id;
        FilterAppend(before, id, keep);
        FilterKeepsAll(before, keep);
      }
    }
  }

  /** Two clicks on the same resource before the server answers: the second
      is ignored, so one request goes out; once it succeeds the resource is
      gone and no id is marked any more. */
  method DoubleClickDeletesOnce(rs: seq<Resource>, id: int) returns (first: bool, second: bool, left: seq<Resource>, marked: seq<int>)
    ensures first && !second
    ensures left == Filter(rs, (r: Resource) => r.id != id)
    ensures marked == []
  {
    var page := new TodoListState(rs);
    first := page.BeginDelete(id);
    second := page.BeginDelete(id);
    page.FinishDelete(id, true, None);
    left := page.resources;
    marked := page.deletingIds;
  }

  /** After a successful delete no resource with that id is left, and every
      other resource is still there, in the same order. */
  lemma DeleteRemovesExactlyThatId(rs: seq<Resource>, id: int)
    ensures var left := Filter(rs, (r: Resource) => r.id != id);
      && IsSubsequence(left, rs)
      && (forall r :: r in left ==> r.id != id)
      && (forall r :: r in rs && r.id != id ==> r in left)
  {
    FilterIsSubsequence(rs, (r: Resource) => r.id != id);
  }
}
