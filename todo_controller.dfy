/** The HTTP handlers of the server: each checks its request, makes at most
    one repository call and chooses a status code and a JSON body. */
module Controller {
  import opened TodoModel
  import opened JsText
  import opened Repository

  /** A field of the parsed JSON request body. `Other` stands for every value
      that is neither a string nor a boolean (null, numbers, arrays, objects). */
  datatype JsonField = Missing | JsonString(s: string) | JsonBool(b: bool) | Other

  /** What a handler reads from a request: the `:id` path parameter and the
      body fields `text` and `completed`. */
  datatype Request = Request(id: string, text: JsonField, completed: JsonField)

  datatype Body = TodoBody(todo: Todo) | TodoListBody(todos: seq<Todo>) | ErrorBody(error: string) | NoBody

  datatype Response = Response(status: int, body: Body)

  /** The outcome of a handler's checks: go on with a repository payload, or
      answer at once. */
  datatype Checked<+T> = Accept(value: T) | Reject(response: Response)

  const TextRequiredMessage: string := "Text is required and must be a non-empty string"
  const TextInvalidMessage: string := "Text must be a non-empty string"
  const CompletedInvalidMessage: string := "Completed must be a boolean"
  const NotFoundMessage: string := "Todo not found"
  const InternalErrorMessage: string := "Internal server error"

  const InternalError: Response := Response(500, ErrorBody(InternalErrorMessage))
  const NotFound: Response := Response(404, ErrorBody(NotFoundMessage))

  /** JavaScript falsiness of a body field. Every `Other` value is rejected
      by the type test that follows, so its truthiness does not matter. A
      falsy field is never a non-blank string, so the test rejects nothing
      the later ones would let through. */
  predicate Falsy(f: JsonField)
    ensures Falsy(f) ==> !IsNonBlankString(f)
  {
    || f.Missing?
    || (f.JsonString? && f.s == "")
    || (f.JsonBool? && !f.b)
  }

  /** The text field holds a string that is not all white space. */
  predicate IsNonBlankString(f: JsonField) {
    f.JsonString? && !Blank(f.s)
  }

  /** The checks of `createTodo`: 400 unless `text` is a non-blank string,
      otherwise the trimmed text goes to the repository. */
  function CheckCreate(text: JsonField): (r: Checked<CreateTodoDto>)
    ensures r.Reject? <==> !IsNonBlankString(text)
    ensures r.Reject? ==> r.response == Response(400, ErrorBody(TextRequiredMessage))
    ensures r.Accept? ==> r.value.text != [] && r.value.text == Trim(text.s)
  {
    if Falsy(text) || !text.JsonString? || Trim(text.s) == "" then
      Reject(Response(400, ErrorBody(TextRequiredMessage)))
    else
      Accept(CreateTodoDto(Trim(text.s)))
  }

  /** Text the client already trimmed passes the create check and is stored
      exactly as sent. */
  lemma CheckCreateOfTrimmed(s: string)
    requires !Blank(s)
    ensures CheckCreate(JsonString(Trim(s))) == Accept(CreateTodoDto(Trim(s)))
  {
    TrimIdempotent(s);
  }

  /** The checks of `updateTodo`: a present `text` must be a non-blank string
      (checked first), a present `completed` must be a boolean; the payload
      carries exactly the present fields, the text trimmed. */
  function CheckUpdate(text: JsonField, completed: JsonField): (r: Checked<UpdateTodoDto>)
    ensures r.Accept? <==> (text.Missing? || IsNonBlankString(text)) && (completed.Missing? || completed.JsonBool?)
    ensures !(text.Missing? || IsNonBlankString(text)) ==>
              r == Reject(Response(400, ErrorBody(TextInvalidMessage)))
    ensures (text.Missing? || IsNonBlankString(text)) && !(completed.Missing? || completed.JsonBool?) ==>
              r == Reject(Response(400, ErrorBody(CompletedInvalidMessage)))
    ensures r.Accept? ==>
              && (r.value.text.Some? <==> !text.Missing?)
              && (r.value.text.Some? ==> r.value.text.value == Trim(text.s) && r.value.text.value != [])
              && (r.value.completed.Some? <==> !completed.Missing?)
              && (r.value.completed.Some? ==> r.value.completed.value == completed.b)
  {
    if !text.Missing? && (!text.JsonString? || Trim(text.s) == "") then
      Reject(Response(400, ErrorBody(TextInvalidMessage)))
    else if !completed.Missing? && !completed.JsonBool? then
      Reject(Response(400, ErrorBody(CompletedInvalidMessage)))
    else
      Accept(UpdateTodoDto(
        if text.Missing? then None else Some(Trim(text.s)),
        if completed.Missing? then None else Some(completed.b)))
  }

  /** `getAllTodos`: 200 with the list, 500 on an exception. */
  function ListResponse(c: Completion<seq<Todo>>): (r: Response)
    ensures r.status == 500 <==> c.Threw?
    ensures c.Threw? ==> r == InternalError
    ensures c.Returned? ==> r.status == 200 && r.body == TodoListBody(c.value)
  {
    match c
    case Threw(_) => InternalError
    case Returned(todos) => Response(200, TodoListBody(todos))
  }

  /** `getTodoById` and `updateTodo` after the lookup: 404 when the repository
      found nothing, 200 with the todo otherwise, 500 on an exception. */
  function FoundResponse(c: Completion<Option<Todo>>): (r: Response)
    ensures r.status == 500 <==> c.Threw?
    ensures c.Threw? ==> r == InternalError
    ensures r.status == 404 <==> c == Returned(None)
    ensures r.status == 200 <==> c.Returned? && c.value.Some?
    ensures r.status == 200 ==> r.body == TodoBody(c.value.value)
  {
    match c
    case Threw(_) => InternalError
    case Returned(None) => NotFound
    case Returned(Some(todo)) => Response(200, TodoBody(todo))
  }

  /** `createTodo` after the insert: 201 with the todo, 500 on an exception. */
  function CreatedResponse(c: Completion<Todo>): (r: Response)
    ensures r.status == 500 <==> c.Threw?
    ensures c.Threw? ==> r == InternalError
    ensures c.Returned? ==> r.status == 201 && r.body == TodoBody(c.value)
  {
    match c
    case Threw(_) => InternalError
    case Returned(todo) => Response(201, TodoBody(todo))
  }

  /** `deleteTodo` after the delete: 204 with no body exactly when a row was
      removed, 404 when none was, 500 on an exception. */
  function DeletedResponse(c: Completion<bool>): (r: Response)
    ensures r.status == 500 <==> c.Threw?
    ensures c.Threw? ==> r == InternalError
    ensures r.status == 204 <==> c == Returned(true)
    ensures r.status == 204 ==> r.body == NoBody
    ensures r.status == 404 <==> c == Returned(false)
  {
    match c
    case Threw(_) => InternalError
    case Returned(false) => NotFound
    case Returned(true) => Response(204, NoBody)
  }

  /** A text that is not empty and has no white space at either end. */
  predicate TrimmedText(s: string) {
    s != [] && !IsWhitespace(s[0]) && !IsWhitespace(s[|s| - 1])
  }

  /** Being a non-empty trimmed text is exactly being non-empty and equal to
      one's own trim. */
  lemma TrimmedTextIsOwnTrim(s: string)
    ensures TrimmedText(s) <==> s != [] && Trim(s) == s
  {
    if TrimmedText(s) {
      TrimUnchanged(s);
    }
  }

  /** The texts the API lets into the store: never empty, and already
      trimmed. */
  ghost predicate TextsTrimmed(contents: map<string, Todo>) {
    forall id :: id in contents ==> TrimmedText(contents[id].text)
  }

  /** Storing a todo created from a checked body keeps every stored text
      non-empty and trimmed. */
  lemma CreateKeepsTextsTrimmed(contents: map<string, Todo>, text: JsonField, id: string, now: int)
    requires TextsTrimmed(contents) && CheckCreate(text).Accept?
    ensures TextsTrimmed(contents[id := Todo(id, CheckCreate(text).value.text, false, now)])
  {
    TrimOfNonBlank(text.s);
    StoreTrimmed(contents, id, Todo(id, Trim(text.s), false, now));
  }

  /** Merging a checked update payload into a stored todo keeps every stored
      text non-empty and trimmed. */
  lemma UpdateKeepsTextsTrimmed(contents: map<string, Todo>, id: string, text: JsonField, completed: JsonField)
    requires TextsTrimmed(contents) && id in contents && CheckUpdate(text, completed).Accept?
    ensures TextsTrimmed(contents[id := Merge(contents[id], CheckUpdate(text, completed).value)])
  {
    var dto := CheckUpdate(text, completed).value;
    if dto.text.Some? {
      TrimOfNonBlank(text.s);
    }
    var merged := Merge(contents[id], dto);
    assert TrimmedText(merged.text) by {
      if dto.text.None? {
        assert merged.text == contents[id].text;
      }
    }
    StoreTrimmed(contents, id, merged);
  }

  /** The trim of a text that is not all white space is a non-empty trimmed
      text. */
  lemma TrimOfNonBlank(s: string)
    requires !Blank(s)
    ensures TrimmedText(Trim(s))
  {
  }

  /** Storing a todo with a trimmed text keeps every stored text trimmed. */
  lemma StoreTrimmed(contents: map<string, Todo>, key: string, t: Todo)
    requires TextsTrimmed(contents) && TrimmedText(t.text)
    ensures TextsTrimmed(contents[key := t])
  {
    var stored := contents[key := t];
    forall k | k in stored ensures TrimmedText(stored[k].text) {
      if k != key {
        assert stored[k] == contents[k];
      }
    }
  }

  class TodoController {
    const repository: TodoRepository

    /** The repository is well formed, and every stored text passed the
        handlers' checks. */
    ghost predicate Valid()
      reads this, repository
    {
      repository.Valid() && TextsTrimmed(repository.Contents())
    }

    /** A controller over a repository of its own. */
    constructor ()
      ensures Valid() && fresh(repository) && repository.Contents() == map[]
    {
      repository := new TodoRepository();
    }

    /** GET /api/todos */
    method GetAllTodos() returns (res: Response)
      requires Valid()
      ensures res.status == 200 && res.body.TodoListBody?
      ensures IsNewestFirstListing(res.body.todos, repository.Contents())
    {
      var todos := repository.FindAll();
      res := ListResponse(Returned(todos));
    }

    /** GET /api/todos/:id */
    method GetTodoById(req: Request) returns (res: Response)
      requires Valid()
      ensures req.id !in repository.Contents() ==> res == NotFound
      ensures req.id in repository.Contents() ==> res == Response(200, TodoBody(repository.Contents()[req.id]))
    {
      var todo := repository.FindById(req.id);
      res := FoundResponse(Returned(todo));
    }

    /** POST /api/todos, with `newId` the generated UUID and `now` the clock. */
    method CreateTodo(req: Request, newId: string, now: int) returns (res: Response)
      requires Valid()
      modifies repository
      ensures Valid()
      ensures !IsNonBlankString(req.text) ==>
                && res == Response(400, ErrorBody(TextRequiredMessage))
                && repository.Contents() == old(repository.Contents())
      ensures IsNonBlankString(req.text) && newId !in old(repository.Contents()) ==>
                var todo := Todo(newId, Trim(req.text.s), false, now);
                && res == Response(201, TodoBody(todo))
                && repository.Contents() == old(repository.Contents())[newId := todo]
      ensures IsNonBlankString(req.text) && newId in old(repository.Contents()) ==>
                && res == InternalError
                && repository.Contents() == old(repository.Contents())
    {
      var checked := CheckCreate(req.text);
      if checked.Reject? {
        return checked.response;
      }
      CreateKeepsTextsTrimmed(repository.Contents(), req.text, newId, now);
      var created := repository.Create(checked.value, newId, now);
      res := CreatedResponse(created);
    }

    /** PUT /api/todos/:id */
    method UpdateTodo(req: Request) returns (res: Response)
      requires Valid()
      modifies repository
      ensures Valid()
      ensures CheckUpdate(req.text, req.completed).Reject? ==>
                && res == CheckUpdate(req.text, req.completed).response
                && repository.Contents() == old(repository.Contents())
      ensures CheckUpdate(req.text, req.completed).Accept? && req.id !in old(repository.Contents()) ==>
                && res == NotFound
                && repository.Contents() == old(repository.Contents())
      ensures CheckUpdate(req.text, req.completed).Accept? && req.id in old(repository.Contents()) ==>
                var updated := Merge(old(repository.Contents())[req.id], CheckUpdate(req.text, req.completed).value);
                && res == Response(200, TodoBody(updated))
                && repository.Contents() == old(repository.Contents())[req.id := updated]
    {
      var checked := CheckUpdate(req.text, req.completed);
      if checked.Reject? {
        return checked.response;
      }
      if req.id in repository.Contents() {
        UpdateKeepsTextsTrimmed(repository.Contents(), req.id, req.text, req.completed);
      }
      var todo := repository.Update(req.id, checked.value);
      res := FoundResponse(Returned(todo));
    }

    /** DELETE /api/todos/:id */
    method DeleteTodo(req: Request) returns (res: Response)
      requires Valid()
      modifies repository
      ensures Valid()
      ensures req.id in old(repository.Contents()) ==> res == Response(204, NoBody)
      ensures req.id !in old(repository.Contents()) ==> res == NotFound
      ensures repository.Contents() == old(repository.Contents()) - {req.id}
    {
      var deleted := repository.Delete(req.id);
      res := DeletedResponse(Returned(deleted));
    }
  }

  /** The API's rejections on an empty store, stated over the contracts
      above. */
  method RejectionScenario(a: string, now: int)
  {
    var api := new TodoController();
    var res := api.CreateTodo(Request("", JsonString(""), Missing), a, now);
    assert res.status == 400 && api.repository.Contents() == map[];
    res := api.CreateTodo(Request("", Missing, Missing), a, now);
    assert res.status == 400 && api.repository.Contents() == map[];
    res := api.UpdateTodo(Request(a, Missing, JsonBool(true)));
    assert res == NotFound;
    res := api.UpdateTodo(Request(a, Missing, Other));
    assert res.status == 400;
    res := api.DeleteTodo(Request(a, Missing, Missing));
    assert res == NotFound;
  }

  /** One todo through the API, stated over the contracts above; `text` is
      a title with no white space at either end. */
  method LifecycleScenario(a: string, text: string, now: int)
    requires text != [] && !IsWhitespace(text[0]) && !IsWhitespace(text[|text| - 1])
  {
    var api := new TodoController();
    TrimUnchanged(text);
    var res := api.CreateTodo(Request("", JsonString(text), Missing), a, now);
    assert res == Response(201, TodoBody(Todo(a, text, false, now)));
    res := api.UpdateTodo(Request(a, Missing, JsonBool(true)));
    assert res.status == 200 && res.body.todo.completed;
    res := api.DeleteTodo(Request(a, Missing, Missing));
    assert res.status == 204;
    res := api.GetTodoById(Request(a, Missing, Missing));
    assert res == NotFound;
  }
}
