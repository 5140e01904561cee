/** The logic of the create / edit form: the comma-separated tag box, the
    category selector, loading an existing resource into the form, and the
    two payloads the form submits. */
module ResourceFormPage {

  import opened Wrappers
  import opened Text
  import opened Js
  import opened Seqs
  import opened ClientModel
  import ResourceService

  // ------------------------------------------------------------------ tags

  /** `parts.map(t => t.trim())`. */
  function TrimAll(parts: seq<string>): (r: seq<string>)
    ensures |r| == |parts| && forall i :: 0 <= i < |parts| ==> r[i] == Trim(parts[i])
  {
    seq(|parts|, i requires 0 <= i < |parts| => Trim(parts[i]))
  }

  predicate NonEmpty(t: string)
  {
    |t| > 0
  }

  /** `tags.split(',').map(t => t.trim()).filter(t => t.length > 0)`. */
  function ParseTags(s: string): seq<string>
  {
    Filter(TrimAll(Split(s, ',')), NonEmpty)
  }

  /** Each parsed tag is non-empty, trimmed and free of commas. */
  lemma ParsedTagsAreClean(s: string)
    ensures forall t :: t in ParseTags(s) ==> t != "" && Trimmed(t) && ',' !in t
  {
    PiecesTrimmed(s);
  }

  /** The parsed tags keep the order they were typed in. */
  lemma ParsedTagsInOrder(s: string)
    ensures IsSubsequence(ParseTags(s), TrimAll(Split(s, ',')))
  {
    FilterIsSubsequence(TrimAll(Split(s, ',')), NonEmpty);
  }

  /** No piece that is not blank is lost. */
  lemma ParsedTagsKeepEveryName(s: string, i: int)
    requires 0 <= i < |Split(s, ',')| && Trim(Split(s, ',')[i]) != ""
    ensures Trim(Split(s, ',')[i]) in ParseTags(s)
  {
    var pieces := TrimAll(Split(s, ','));
    assert pieces[i] in pieces;
  }

  /** Every trimmed piece is trimmed and holds no comma. */
  lemma PiecesTrimmed(s: string)
    ensures forall t :: t in TrimAll(Split(s, ',')) ==> Trimmed(t) && ',' !in t
  {
    var parts := Split(s, ',');
    var pieces := TrimAll(parts);
    forall i | 0 <= i < |pieces| ensures Trimmed(pieces[i]) && ',' !in pieces[i] {
      TrimIsTrimmed(parts[i]);
      SplitPiecesHaveNoSeparator(s, ',', i);
      TrimKeeps(parts[i], ',');
    }
  }

  /** `trim` only drops characters: a character missing from the input is
      missing from the result. */
  lemma TrimKeeps(s: string, c: char)
    requires c !in s
    ensures c !in Trim(s)
  {
    var u := TrimStart(s);
    forall j | 0 <= j < |u| ensures u[j] != c {
      assert u[j] == s[|s| - |u| + j];
    }
    var t := TrimEnd(u);
    forall j | 0 <= j < |t| ensures t[j] != c {
      assert t[j] == u[j];
    }
  }

  /** `names.join(', ')`, as the edit form fills the tag box. */
  function JoinTags(names: seq<string>): string
  {
    Join(names, ", ")
  }

  /** The names after the first, each behind the blank of `', '`. */
  function Spaced(names: seq<string>): (r: seq<string>)
    ensures |r| == |names| && forall i :: 0 <= i < |names| ==> r[i] == " " + names[i]
  {
    seq(|names|, i requires 0 <= i < |names| => " " + names[i])
  }

  /** A leading blank goes to the front of the first piece. */
  lemma SplitLeadingBlank(x: string, c: char)
    requires c != ' '
    ensures Split(" " + x, c) == [" " + Split(x, c)[0]] + Split(x, c)[1..]
  {
    assert (" " + x)[1..] == x;
  }

  /** Joining two or more names: the first, the comma, then the blank and
      the others joined. */
  lemma JoinTagsCons(names: seq<string>)
    requires |names| >= 2
    ensures JoinTags(names) == names[0] + [','] + (" " + JoinTags(names[1..]))
  {
  }

  lemma SpacedCons(names: seq<string>)
    requires |names| >= 1
    ensures Spaced(names) == [" " + names[0]] + Spaced(names[1..])
  {
  }

  /** Splitting joined names at the commas gives the first name and then the
      others with their blank in front. */
  lemma {:induction false} SplitJoinedTags(names: seq<string>)
    requires |names| >= 1
    requires forall i :: 0 <= i < |names| ==> ',' !in names[i]
    ensures Split(JoinTags(names), ',') == [names[0]] + Spaced(names[1..])
  {
    if |names| == 1 {
      SplitNoSeparator(names[0], ',');
    } else {
      var rest := names[1..];
      var tail := JoinTags(rest);
      SplitJoinedTags(rest);
      JoinTagsCons(names);
      SplitAfterPiece(names[0], ',', " " + tail);
      SplitLeadingBlank(tail, ',');
      SpacedCons(rest);
    }
  }

  /** Loading then submitting keeps the tags: names that are non-empty,
      already trimmed and free of commas come back from the joined text
      exactly, in the same order. */
  lemma TagsRoundTrip(names: seq<string>)
    requires forall i :: 0 <= i < |names| ==> names[i] != "" && Trimmed(names[i]) && ',' !in names[i]
    ensures ParseTags(JoinTags(names)) == names
  {
    if |names| == 0 {
      assert TrimAll(Split("", ',')) == [""];
    } else {
      SplitJoinedTags(names);
      var pieces := TrimAll(Split(JoinTags(names), ','));
      forall i | 0 <= i < |names| ensures pieces[i] == names[i] {
        if i > 0 {
          assert Split(JoinTags(names), ',')[i] == " " + names[i];
          TrimLeadingBlank(names[i]);
        }
      }
      assert pieces == names;
      FilterKeepsAll(names, NonEmpty);
    }
  }

  /** A tag box holding only blanks and commas gives no tag at all. */
  lemma BlankTagBox()
    ensures ParseTags(" , ,") == []
  {
    assert " , ," == " " + [','] + (" " + [','] + "");
    SplitAfterPiece(" ", ',', " " + [','] + "");
    SplitAfterPiece(" ", ',', "");
    SplitNoSeparator("", ',');
    TrimEmptyIffAllSpace(" ");
    TrimEmptyIffAllSpace("");
    var pieces := TrimAll(Split(" , ,", ','));
    assert pieces == ["", "", ""];
    FilterDropsAll(pieces, NonEmpty);
  }

  // -------------------------------------------------------------- category

  /** `categoryId ? Number(categoryId) : null`: no category for an empty
      selection, otherwise the selection read as a number. */
  function CategoryPayload(categoryId: Value): (v: Value)
    ensures !Truthy(categoryId) ==> v == Null
    ensures categoryId == Str("") ==> v == Null
    ensures Truthy(categoryId) ==> v.Num? || v == NaN
    ensures categoryId.Num? && categoryId.n != 0 ==> v == categoryId
    ensures categoryId.Str? && categoryId.s != "" && AllDigits(categoryId.s) ==> v == Num(DigitsValue(categoryId.s))
  {
    if Truthy(categoryId) then ToNumber(categoryId) else Null
  }

  // ------------------------------------------------------------------ form

  /** The form's state: title, description, type, the selected category
      (`''` for none), the tag box and the chosen file (`null` for none). */
  datatype Form = Form(
    title: Value,
    description: Value,
    kind: Value,
    categoryId: Value,
    tags: string,
    file: Value)

  /** The empty form a new resource starts from. */
  const BlankForm := Form(Str(""), Str(""), Str("note"), Str(""), "", Null)

  /** `loadResource`: the edit form takes the resource's title and type, its
      description or `''`, its category or `''`, and its tag names joined by
      `', '` (`''` without a tag list); the chosen file stays. */
  function LoadForm(r: Resource, f: Form): (g: Form)
    ensures g.title == Str(r.title) && g.kind == r.kind && g.file == f.file
    ensures Truthy(Prop(r.content, "description")) ==> g.description == Prop(r.content, "description")
    ensures !Truthy(Prop(r.content, "description")) ==> g.description == Str("")
    ensures Truthy(r.categoryId) ==> g.categoryId == r.categoryId
    ensures !Truthy(r.categoryId) ==> g.categoryId == Str("")
    ensures r.tags.None? ==> g.tags == ""
    ensures r.tags.Some? ==> g.tags == JoinTags(Names(r.tags.value))
  {
    Form(
      Str(r.title),
      Or(Prop(r.content, "description"), Str("")),
      r.kind,
      Or(r.categoryId, Str("")),
      if r.tags.None? then "" else JoinTags(Names(r.tags.value)),
      f.file)
  }

  /** The parsed tag names as a JSON array of strings. */
  function TagArray(tags: seq<string>): (v: Value)
    ensures v.Arr? && |v.items| == |tags| && forall i :: 0 <= i < |tags| ==> v.items[i] == Str(tags[i])
  {
    Arr(seq(|tags|, i requires 0 <= i < |tags| => Str(tags[i])))
  }

  /** The fields both payloads share, given the parsed tag names: content
      is exactly `{ description }`. */
  function CommonFields(f: Form, tagsArray: seq<string>): (m: map<string, Value>)
    ensures m.Keys == {"title", "type", "content", "categoryId", "tags"}
    ensures m["title"] == f.title && m["type"] == f.kind
    ensures m["content"] == Obj(map["description" := f.description])
    ensures m["categoryId"] == CategoryPayload(f.categoryId)
    ensures m["tags"] == TagArray(tagsArray)
  {
    map["title" := f.title, "type" := f.kind, "content" := Obj(map["description" := f.description]),
        "categoryId" := CategoryPayload(f.categoryId), "tags" := TagArray(tagsArray)]
  }

  /** `resourceData`, sent on create: the shared fields and the file. */
  function CreatePayload(f: Form, tagsArray: seq<string>): (v: Value)
    ensures v.Obj? && v.fields.Keys == {"title", "type", "content", "categoryId", "tags", "file"}
    ensures v.fields["file"] == f.file
    ensures forall k :: k in v.fields && k != "file" ==> v.fields[k] == CommonFields(f, tagsArray)[k]
  {
    Obj(CommonFields(f, tagsArray)["file" := f.file])
  }

  /** The object sent on edit: the shared fields and never a file. */
  function EditPayload(f: Form, tagsArray: seq<string>): (v: Value)
    ensures v.Obj? && v.fields.Keys == {"title", "type", "content", "categoryId", "tags"}
    ensures "file" !in v.fields
    ensures forall k :: k in v.fields ==> v.fields[k] == CommonFields(f, tagsArray)[k]
  {
    Obj(CommonFields(f, tagsArray))
  }

  /** `handleSubmit`: the tag box is parsed once, and the edit form sends
      the edit payload, the create form the create payload. Both carry the
      same title, type, content, category and tags; only the create carries
      the file. */
  function HandleSubmit(f: Form, isEdit: bool): (v: Value)
    ensures v.Obj? && ("file" in v.fields <==> !isEdit)
    ensures !isEdit ==> v.fields["file"] == f.file
    ensures "content" in v.fields && v.fields["content"] == Obj(map["description" := f.description])
    ensures "categoryId" in v.fields && v.fields["categoryId"] == CategoryPayload(f.categoryId)
    ensures "tags" in v.fields && v.fields["tags"] == TagArray(ParseTags(f.tags))
  {
    var tagsArray := ParseTags(f.tags);
    if isEdit then EditPayload(f, tagsArray) else CreatePayload(f, tagsArray)
  }

  /** An edit carries no file, so the update goes out as JSON, and the JSON
      body is exactly the object the form built. */
  lemma EditGoesAsJson(f: Form, tagsArray: seq<string>)
    ensures !Truthy(Prop(EditPayload(f, tagsArray), "file"))
    ensures ResourceService.JsonUpdateBody(EditPayload(f, tagsArray)) == EditPayload(f, tagsArray).fields
  {
  }

  /** On create the multipart form carries title, type, content and tags
      always, the category when one is selected and the file when one is
      chosen. */
  lemma CreateSendsFields(f: Form, tagsArray: seq<string>, n: string)
    ensures ResourceService.Has(ResourceService.MultipartFields(CreatePayload(f, tagsArray), false), n) <==>
      || n in {"title", "type", "content", "tags"}
      || (n == "categoryId" && Truthy(CategoryPayload(f.categoryId)))
      || (n == "file" && Truthy(f.file))
  {
    var d := CreatePayload(f, tagsArray);
    assert Prop(d, "content") == Obj(map["description" := f.description]);
    assert Prop(d, "tags") == TagArray(tagsArray);
    assert Prop(d, "categoryId") == CategoryPayload(f.categoryId);
    assert Prop(d, "file") == f.file;
    ResourceService.MultipartHas(d, false, n);
  }

  /** Editing a resource without touching the tag box sends its own tags
      back, provided each name is non-empty, trimmed and comma-free. */
  lemma EditKeepsTags(r: Resource, f: Form)
    requires r.tags.Some? ==> forall i :: 0 <= i < |r.tags.value| ==>
      var t := r.tags.value[i].name; t != "" && Trimmed(t) && ',' !in t
    ensures var g := LoadForm(r, f); HandleSubmit(g, true).fields["tags"] == TagNames(r.tags)
  {
    var g := LoadForm(r, f);
    var ts := ParseTags(g.tags);
    if r.tags.Some? {
      var names := Names(r.tags.value);
      TagsRoundTrip(names);
      assert ts == names;
      assert TagArray(names) == TagNames(r.tags);
    } else {
      TagsRoundTrip([]);
      assert ts == [];
    }
    assert HandleSubmit(g, true).fields["tags"] == CommonFields(g, ts)["tags"];
  }

  /** Editing a resource without touching the selector sends its category
      back; a resource without one (or with id 0) gets `null`. */
  lemma EditKeepsCategory(r: Resource, f: Form, tagsArray: seq<string>)
    requires r.categoryId.Num? || r.categoryId == Null
    ensures EditPayload(LoadForm(r, f), tagsArray).fields["categoryId"] == (if Truthy(r.categoryId) then r.categoryId else Null)
  {
  }

  /** The edit sends a content holding only the description: any other
      content field of the resource (a to-do's `completed`, a `favorite`
      flag) is dropped. */
  lemma EditDropsOtherContent(r: Resource, f: Form, tagsArray: seq<string>)
    ensures var c := EditPayload(LoadForm(r, f), tagsArray).fields["content"];
      && c == Obj(map["description" := Or(Prop(r.content, "description"), Str(""))])
      && "completed" !in c.fields && "favorite" !in c.fields
  {
    var g := LoadForm(r, f);
    var m := map["description" := g.description];
    assert EditPayload(g, tagsArray).fields["content"] == Obj(m);
    assert m.Keys == {"description"};
  }
}
