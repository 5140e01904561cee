/** The client's request builder for resources: `createResource` fills a
    multipart form through conditional appends, and `updateResource` does the
    same when a file is given and otherwise sends a plain JSON body. The
    resource record is a JavaScript value read with `?.`-style access. */
module ResourceService {

  import opened Js

  /** What one `formData.append(name, value)` call stores: the value itself,
      or the text `JSON.stringify(value)`, which the model leaves unexpanded. */
  datatype Part = Plain(value: Value) | Json(of: Value)

  datatype Entry = Entry(name: string, part: Part)

  /** Where each field goes in the form: title, type, categoryId, content,
      tags, file. */
  function Rank(name: string): (r: int)
    ensures 0 <= r <= 6
    ensures r < 6 <==> name in {"title", "type", "categoryId", "content", "tags", "file"}
  {
    if name == "title" then 0
    else if name == "type" then 1
    else if name == "categoryId" then 2
    else if name == "content" then 3
    else if name == "tags" then 4
    else if name == "file" then 5
    else 6
  }

  /** The entries follow the fixed field order, each field at most once. */
  predicate InFieldOrder(es: seq<Entry>)
  {
    forall i, j :: 0 <= i < j < |es| ==> Rank(es[i].name) < Rank(es[j].name)
  }

  /** Some entry has this name. */
  predicate Has(es: seq<Entry>, name: string)
  {
    exists i :: 0 <= i < |es| && es[i].name == name
  }

  /** Every entry with this name carries this part. */
  predicate Carries(es: seq<Entry>, name: string, part: Part)
  {
    forall i :: 0 <= i < |es| && es[i].name == name ==> es[i].part == part
  }

  /** `Array.isArray(v)`; an array is always truthy. */
  predicate IsArray(v: Value)
  {
    v.Arr?
  }

  /** `if (cond) formData.append(e.name, e.part)`. */
  function AppendIf(es: seq<Entry>, cond: bool, e: Entry): (r: seq<Entry>)
    ensures cond ==> r == es + [e]
    ensures !cond ==> r == es
  {
    if cond then es + [e] else es
  }

  /** What one conditional append does to the names, the parts and the order. */
  lemma AppendIfFacts(es: seq<Entry>, cond: bool, e: Entry, n: string, p: Part)
    ensures Has(AppendIf(es, cond, e), n) <==> Has(es, n) || (cond && e.name == n)
    ensures Carries(es, n, p) && (cond && e.name == n ==> e.part == p) ==> Carries(AppendIf(es, cond, e), n, p)
  {
    var r := AppendIf(es, cond, e);
    if cond {
      if Has(r, n) {
        var i :| 0 <= i < |r| && r[i].name == n;
        if i < |es| { assert es[i].name == n; }
      }
      if Has(es, n) {
        var i :| 0 <= i < |es| && es[i].name == n;
        assert r[i].name == n;
      }
      if cond && e.name == n {
        assert r[|es|].name == n;
      }
    }
  }

  /** An append whose field ranks after every present field keeps the order. */
  lemma AppendIfOrder(es: seq<Entry>, cond: bool, e: Entry)
    requires InFieldOrder(es)
    requires forall i :: 0 <= i < |es| ==> Rank(es[i].name) < Rank(e.name)
    ensures InFieldOrder(AppendIf(es, cond, e))
    ensures forall i :: 0 <= i < |AppendIf(es, cond, e)| ==> Rank(AppendIf(es, cond, e)[i].name) <= Rank(e.name)
  {
  }

  /** The form `createResource` builds (`fileAlways` false) and the form of
      `updateResource`'s file branch (`fileAlways` true). */
  function MultipartFields(d: Value, fileAlways: bool): seq<Entry>
  {
    var base := [Entry("title", Plain(Prop(d, "title"))), Entry("type", Plain(Or(Prop(d, "type"), Str("note"))))];
    var withCategory := AppendIf(base, Truthy(Prop(d, "categoryId")), Entry("categoryId", Plain(Prop(d, "categoryId"))));
    var withContent := AppendIf(withCategory, Truthy(Prop(d, "content")), Entry("content", Json(Prop(d, "content"))));
    var withTags := AppendIf(withContent, IsArray(Prop(d, "tags")), Entry("tags", Json(Prop(d, "tags"))));
    AppendIf(withTags, fileAlways || Truthy(Prop(d, "file")), Entry("file", Plain(Prop(d, "file"))))
  }

  /** Whether the multipart form carries field `n`: title and type always;
      categoryId and content when truthy; tags when an array; the file when
      truthy or when the caller always sends it. */
  predicate Sent(d: Value, fileAlways: bool, n: string)
  {
    || n == "title" || n == "type"
    || (n == "categoryId" && Truthy(Prop(d, "categoryId")))
    || (n == "content" && Truthy(Prop(d, "content")))
    || (n == "tags" && IsArray(Prop(d, "tags")))
    || (n == "file" && (fileAlways || Truthy(Prop(d, "file"))))
  }

  /** What field `n` carries when sent: the type falls back to `'note'`,
      content and tags go as JSON text, everything else as given. */
  function FieldPart(d: Value, n: string): Part
  {
    if n == "type" then Plain(if Truthy(Prop(d, "type")) then Prop(d, "type") else Str("note"))
    else if n == "content" || n == "tags" then Json(Prop(d, n))
    else Plain(Prop(d, n))
  }

  /** The form carries exactly the fields `Sent` names. */
  lemma {:induction false} MultipartHas(d: Value, fileAlways: bool, n: string)
    ensures Has(MultipartFields(d, fileAlways), n) <==> Sent(d, fileAlways, n)
  {
    var base := [Entry("title", Plain(Prop(d, "title"))), Entry("type", Plain(Or(Prop(d, "type"), Str("note"))))];
    assert Has(base, n) <==> n == "title" || n == "type" by {
      if n == "title" { assert base[0].name == n; }
      if n == "type" { assert base[1].name == n; }
    }
    var p := Plain(Undefined);
    var e1 := Entry("categoryId", Plain(Prop(d, "categoryId")));
    var e2 := Entry("content", Json(Prop(d, "content")));
    var e3 := Entry("tags", Json(Prop(d, "tags")));
    var e4 := Entry("file", Plain(Prop(d, "file")));
    var c := AppendIf(base, Truthy(Prop(d, "categoryId")), e1);
    var ct := AppendIf(c, Truthy(Prop(d, "content")), e2);
    var tg := AppendIf(ct, IsArray(Prop(d, "tags")), e3);
    AppendIfFacts(base, Truthy(Prop(d, "categoryId")), e1, n, p);
    AppendIfFacts(c, Truthy(Prop(d, "content")), e2, n, p);
    AppendIfFacts(ct, IsArray(Prop(d, "tags")), e3, n, p);
    AppendIfFacts(tg, fileAlways || Truthy(Prop(d, "file")), e4, n, p);
  }

  /** Every entry of the form carries its field's part. */
  lemma {:induction false} MultipartCarries(d: Value, fileAlways: bool, n: string)
    ensures Carries(MultipartFields(d, fileAlways), n, FieldPart(d, n))
  {
    var p := FieldPart(d, n);
    var base := [Entry("title", Plain(Prop(d, "title"))), Entry("type", Plain(Or(Prop(d, "type"), Str("note"))))];
    assert Carries(base, n, p);
    var e1 := Entry("categoryId", Plain(Prop(d, "categoryId")));
    var e2 := Entry("content", Json(Prop(d, "content")));
    var e3 := Entry("tags", Json(Prop(d, "tags")));
    var e4 := Entry("file", Plain(Prop(d, "file")));
    var c := AppendIf(base, Truthy(Prop(d, "categoryId")), e1);
    var ct := AppendIf(c, Truthy(Prop(d, "content")), e2);
    var tg := AppendIf(ct, IsArray(Prop(d, "tags")), e3);
    AppendIfFacts(base, Truthy(Prop(d, "categoryId")), e1, n, p);
    AppendIfFacts(c, Truthy(Prop(d, "content")), e2, n, p);
    AppendIfFacts(ct, IsArray(Prop(d, "tags")), e3, n, p);
    AppendIfFacts(tg, fileAlways || Truthy(Prop(d, "file")), e4, n, p);
  }

  /** The fields follow the fixed order, each at most once. */
  lemma {:induction false} MultipartOrder(d: Value, fileAlways: bool)
    ensures var es := MultipartFields(d, fileAlways);
      && InFieldOrder(es)
      && (forall i :: 0 <= i < |es| ==> Rank(es[i].name) < 6)
  {
    var base := [Entry("title", Plain(Prop(d, "title"))), Entry("type", Plain(Or(Prop(d, "type"), Str("note"))))];
    var e1 := Entry("categoryId", Plain(Prop(d, "categoryId")));
    var e2 := Entry("content", Json(Prop(d, "content")));
    var e3 := Entry("tags", Json(Prop(d, "tags")));
    var e4 := Entry("file", Plain(Prop(d, "file")));
    var c := AppendIf(base, Truthy(Prop(d, "categoryId")), e1);
    var ct := AppendIf(c, Truthy(Prop(d, "content")), e2);
    var tg := AppendIf(ct, IsArray(Prop(d, "tags")), e3);
    assert Rank(base[0].name) == 0 && Rank(base[1].name) == 1;
    assert Rank(e1.name) == 2 && Rank(e2.name) == 3 && Rank(e3.name) == 4 && Rank(e4.name) == 5;
    assert InFieldOrder(base);
    AppendIfOrder(base, Truthy(Prop(d, "categoryId")), e1);
    AppendIfOrder(c, Truthy(Prop(d, "content")), e2);
    AppendIfOrder(ct, IsArray(Prop(d, "tags")), e3);
    AppendIfOrder(tg, fileAlways || Truthy(Prop(d, "file")), e4);
  }

  /** A file, when sent, is the last entry. */
  lemma MultipartFileLast(d: Value, fileAlways: bool)
    requires fileAlways || Truthy(Prop(d, "file"))
    ensures var es := MultipartFields(d, fileAlways);
      |es| > 0 && es[|es| - 1] == Entry("file", FieldPart(d, "file"))
  {
  }

  /** Title comes first and type second, with `'note'` for a falsy type. */
  lemma {:induction false} MultipartHead(d: Value, fileAlways: bool)
    ensures var es := MultipartFields(d, fileAlways);
      && |es| >= 2
      && es[0] == Entry("title", FieldPart(d, "title"))
      && es[1] == Entry("type", FieldPart(d, "type"))
  {
    var base := [Entry("title", Plain(Prop(d, "title"))), Entry("type", Plain(Or(Prop(d, "type"), Str("note"))))];
    var c := AppendIf(base, Truthy(Prop(d, "categoryId")), Entry("categoryId", Plain(Prop(d, "categoryId"))));
    var ct := AppendIf(c, Truthy(Prop(d, "content")), Entry("content", Json(Prop(d, "content"))));
    var tg := AppendIf(ct, IsArray(Prop(d, "tags")), Entry("tags", Json(Prop(d, "tags"))));
    var es := MultipartFields(d, fileAlways);
    assert c[0] == base[0] && c[1] == base[1];
    assert ct[0] == base[0] && ct[1] == base[1];
    assert tg[0] == base[0] && tg[1] == base[1];
    assert es[0] == base[0] && es[1] == base[1];
  }

  /** A file-bearing update sends exactly the form a create would. */
  lemma UpdateWithFileLikeCreate(d: Value)
    requires Truthy(Prop(d, "file"))
    ensures MultipartFields(d, true) == MultipartFields(d, false)
  {
  }

  /** The JSON body of an update without a file: exactly title, type,
      content, categoryId and tags, copied as they are (no `'note'` default). */
  function JsonUpdateBody(d: Value): (body: map<string, Value>)
    ensures body.Keys == {"title", "type", "content", "categoryId", "tags"}
    ensures forall k :: k in body ==> body[k] == Prop(d, k)
  {
    map["title" := Prop(d, "title"), "type" := Prop(d, "type"), "content" := Prop(d, "content"),
        "categoryId" := Prop(d, "categoryId"), "tags" := Prop(d, "tags")]
  }

  /** A browser `FormData`: the entries in the order they were appended. */
  class FormData {
    var entries: seq<Entry>

    constructor ()
      ensures entries == []
    {
      entries := [];
    }

    method Append(name: string, part: Part)
      modifies this
      ensures entries == old(entries) + [Entry(name, part)]
    {
      entries := entries + [Entry(name, part)];
    }
  }

  /** What `updateResource` sends. */
  datatype UpdateRequest = MultipartPut(form: FormData) | JsonPut(body: map<string, Value>)

  /** The appends both multipart paths share. */
  method AppendFields(form: FormData, d: Value, fileAlways: bool)
    requires form.entries == []
    modifies form
    ensures form.entries == MultipartFields(d, fileAlways)
  {
    form.Append("title", Plain(Prop(d, "title")));
    form.Append("type", Plain(Or(Prop(d, "type"), Str("note"))));
    ghost var base := form.entries;
    assert base == [Entry("title", Plain(Prop(d, "title"))), Entry("type", Plain(Or(Prop(d, "type"), Str("note"))))];
    if Truthy(Prop(d, "categoryId")) {
      form.Append("categoryId", Plain(Prop(d, "categoryId")));
    }
    ghost var c := form.entries;
    assert c == AppendIf(base, Truthy(Prop(d, "categoryId")), Entry("categoryId", Plain(Prop(d, "categoryId"))));
    if Truthy(Prop(d, "content")) {
      form.Append("content", Json(Prop(d, "content")));
    }
    ghost var ct := form.entries;
    assert ct == AppendIf(c, Truthy(Prop(d, "content")), Entry("content", Json(Prop(d, "content"))));
    if IsArray(Prop(d, "tags")) {
      form.Append("tags", Json(Prop(d, "tags")));
    }
    ghost var tg := form.entries;
    assert tg == AppendIf(ct, IsArray(Prop(d, "tags")), Entry("tags", Json(Prop(d, "tags"))));
    if fileAlways || Truthy(Prop(d, "file")) {
      form.Append("file", Plain(Prop(d, "file")));
    }
    assert form.entries == AppendIf(tg, fileAlways || Truthy(Prop(d, "file")), Entry("file", Plain(Prop(d, "file"))));
  }

  /** `createResource`: a fresh form holding the multipart fields. */
  method CreateResource(d: Value) returns (form: FormData)
    ensures fresh(form)
    ensures form.entries == MultipartFields(d, false)
  {
    form := new FormData();
    AppendFields(form, d, false);
  }

  /** `updateResource`: a multipart form when the record carries a file,
      the JSON body otherwise. */
  method UpdateResource(d: Value) returns (request: UpdateRequest)
    ensures Truthy(Prop(d, "file")) ==>
      request.MultipartPut? && fresh(request.form) && request.form.entries == MultipartFields(d, true)
    ensures !Truthy(Prop(d, "file")) ==> request == JsonPut(JsonUpdateBody(d))
  {
    if Truthy(Prop(d, "file")) {
      var form := new FormData();
      AppendFields(form, d, true);
      request := MultipartPut(form);
    } else {
      request := JsonPut(JsonUpdateBody(d));
    }
  }
}
