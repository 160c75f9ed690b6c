/** The client's list-state hook: the todo list, a loading flag and the last
    error message, rewritten after each awaited API call. The outcome of each
    call is an input; the request issued is an output. */
module UseTodos {
  import opened TodoModel
  import opened JsText

  /** What an awaited API call rejected with: an `Error` (with its message)
      or some other thrown value. */
  datatype Failure = ErrorObject(message: string) | NonError

  /** How the API call an operation awaits would settle. */
  datatype ApiReply<+T> = Ok(value: T) | Err(failure: Failure)

  /** The API calls the hook issues. */
  datatype ApiRequest =
    | FetchTodosCall
    | CreateTodoCall(create: CreateTodoDto)
    | UpdateTodoCall(id: string, update: UpdateTodoDto)
    | DeleteTodoCall(id: string)

  /** How the promise an operation returns settles: resolved, or rejected
      with the failure it caught and rethrew. */
  datatype Settled = Resolved | Rejected(failure: Failure)

  const LoadFallback: string := "Failed to load todos"
  const AddFallback: string := "Failed to add todo"
  const UpdateFallback: string := "Failed to update todo"
  const DeleteFallback: string := "Failed to delete todo"

  /** `err instanceof Error ? err.message : fallback` */
  function ErrorMessage(f: Failure, fallback: string): string {
    match f
    case ErrorObject(message) => message
    case NonError => fallback
  }

  /** `todos.find(t => t.id === id)`: the first item with that id. */
  function FindFirst(s: seq<Todo>, id: string): (r: Option<Todo>)
    ensures r.None? <==> !HasId(s, id)
    ensures r.Some? ==> exists i :: 0 <= i < |s| && s[i] == r.value && r.value.id == id
                                    && forall j :: 0 <= j < i ==> s[j].id != id
  {
    if s == [] then None
    else if s[0].id == id then Some(s[0])
    else
      var r := FindFirst(s[1..], id);
      assert HasId(s, id) ==> HasId(s[1..], id) by {
        if HasId(s, id) {
          var i :| 0 <= i < |s| && s[i].id == id;
          assert s[1..][i - 1].id == id;
        }
      }
      assert r.Some? ==> exists i :: 0 <= i < |s| && s[i] == r.value && r.value.id == id
                                     && forall j :: 0 <= j < i ==> s[j].id != id by {
        if r.Some? {
          var i :| 0 <= i < |s[1..]| && s[1..][i] == r.value && r.value.id == id
                   && forall j :: 0 <= j < i ==> s[1..][j].id != id;
          assert s[i + 1] == r.value;
          assert forall j :: 0 < j < i + 1 ==> s[j] == s[1..][j - 1];
        }
      }
      r
  }

  /** `prev.map(t => t.id === id ? u : t)`: every item with that id becomes
      `u`, position by position; the others stay as they are. */
  function ReplaceById(s: seq<Todo>, id: string, u: Todo): (r: seq<Todo>)
    ensures |r| == |s|
    ensures forall i :: 0 <= i < |s| ==> r[i] == (if s[i].id == id then u else s[i])
  {
    if s == [] then []
    else [if s[0].id == id then u else s[0]] + ReplaceById(s[1..], id, u)
  }

  /** `a` is `b` with some items left out, the rest in their order. */
  ghost predicate IsSubsequence(a: seq<Todo>, b: seq<Todo>)
    decreases |b|
  {
    if a == [] then true
    else if b == [] then false
    else if a[0] == b[0] then IsSubsequence(a[1..], b[1..])
    else IsSubsequence(a, b[1..])
  }

  /** How many items of `s` carry the id `id`. */
  function CountId(s: seq<Todo>, id: string): nat {
    if s == [] then 0 else (if s[0].id == id then 1 else 0) + CountId(s[1..], id)
  }

  /** `prev.filter(t => t.id !== id)`: drop every item with that id, keep the
      others in order. */
  function RemoveId(s: seq<Todo>, id: string): (r: seq<Todo>)
    ensures forall t :: t in r <==> t in s && t.id != id
    ensures IsSubsequence(r, s)
    ensures |r| == |s| - CountId(s, id)
    ensures !HasId(s, id) ==> r == s
  {
    if s == [] then []
    else if s[0].id == id then
      var r := RemoveId(s[1..], id);
      SubsequenceOfTail(r, s);
      r
    else
      var r := RemoveId(s[1..], id);
      assert !HasId(s, id) ==> !HasId(s[1..], id) by {
        if HasId(s[1..], id) {
          var i :| 0 <= i < |s[1..]| && s[1..][i].id == id;
          assert s[i + 1].id == id;
        }
      }
      assert ([s[0]] + r)[1..] == r;
      [s[0]] + r
  }

  /** A subsequence of the tail of `b` is a subsequence of `b`. */
  lemma {:induction false} SubsequenceOfTail(a: seq<Todo>, b: seq<Todo>)
    requires b != [] && IsSubsequence(a, b[1..])
    ensures IsSubsequence(a, b)
    decreases |b|, 1
  {
    if a != [] && a[0] == b[0] {
      SubsequenceDropHead(a, b[1..]);
    }
  }

  /** Leaving out the first item of a subsequence gives a subsequence. */
  lemma {:induction false} SubsequenceDropHead(a: seq<Todo>, c: seq<Todo>)
    requires a != [] && IsSubsequence(a, c)
    ensures IsSubsequence(a[1..], c)
    decreases |c|, 2
  {
    if a[0] == c[0] {
      SubsequenceOfTail(a[1..], c);
    } else {
      SubsequenceDropHead(a, c[1..]);
      SubsequenceOfTail(a[1..], c);
    }
  }

  /** The hook's three pieces of state. */
  class TodosState {
    var todos: seq<Todo>
    var loading: bool
    var error: Option<string>

    /** The initial `useState` values: no todos, loading, no error. */
    constructor ()
      ensures todos == [] && loading && error == None
    {
      todos := [];
      loading := true;
      error := None;
    }

    /** `loadTodos`: fetch the list; afterwards `loading` is false whatever
        happened. A failure is recorded, not rethrown. */
    method LoadTodos(reply: ApiReply<seq<Todo>>) returns (call: ApiRequest)
      modifies this
      ensures call == FetchTodosCall
      ensures !loading
      ensures reply.Ok? ==> todos == reply.value && error == None
      ensures reply.Err? ==> todos == old(todos) && error == Some(ErrorMessage(reply.failure, LoadFallback))
    {
      loading := true;
      error := None;
      call := FetchTodosCall;
      match reply {
        case Ok(data) =>
          todos := data;
        case Err(failure) =>
          error := Some(ErrorMessage(failure, LoadFallback));
      }
      loading := false;
    }

    /** `addTodo`: blank text is ignored without a request; otherwise the
        trimmed text is sent and the server's todo is put at the front. */
    method AddTodo(text: string, reply: ApiReply<Todo>) returns (call: Option<ApiRequest>, settled: Settled)
      modifies this
      ensures loading == old(loading)
      ensures Blank(text) ==>
                && call == None && settled == Resolved
                && todos == old(todos) && error == old(error)
      ensures !Blank(text) ==> call == Some(CreateTodoCall(CreateTodoDto(Trim(text))))
      ensures !Blank(text) && reply.Ok? ==>
                && todos == [reply.value] + old(todos)
                && error == None && settled == Resolved
      ensures !Blank(text) && reply.Err? ==>
                && todos == old(todos)
                && error == Some(ErrorMessage(reply.failure, AddFallback))
                && settled == Rejected(reply.failure)
    {
      var trimmed := Trim(text);
      if trimmed == "" {
        return None, Resolved;
      }
      error := None;
      call := Some(CreateTodoCall(CreateTodoDto(trimmed)));
      match reply {
        case Ok(newTodo) =>
          todos := [newTodo] + todos;
          settled := Resolved;
        case Err(failure) =>
          error := Some(ErrorMessage(failure, AddFallback));
          settled := Rejected(failure);
      }
    }

    /** `toggleTodo`: an id not in the list is ignored without a request;
        otherwise the inverse of the first match's `completed` is sent and
        every item with that id is replaced by the server's todo. */
    method ToggleTodo(id: string, reply: ApiReply<Todo>) returns (call: Option<ApiRequest>, settled: Settled)
      modifies this
      ensures loading == old(loading)
      ensures !HasId(old(todos), id) ==>
                && call == None && settled == Resolved
                && todos == old(todos) && error == old(error)
      ensures HasId(old(todos), id) ==>
                call == Some(UpdateTodoCall(id, UpdateTodoDto(None, Some(!FindFirst(old(todos), id).value.completed))))
      ensures HasId(old(todos), id) && reply.Ok? ==>
                && todos == ReplaceById(old(todos), id, reply.value)
                && error == None && settled == Resolved
      ensures HasId(old(todos), id) && reply.Err? ==>
                && todos == old(todos)
                && error == Some(ErrorMessage(reply.failure, UpdateFallback))
                && settled == Rejected(reply.failure)
    {
      var todo := FindFirst(todos, id);
      if todo.None? {
        return None, Resolved;
      }
      error := None;
      call := Some(UpdateTodoCall(id, UpdateTodoDto(None, Some(!todo.value.completed))));
      match reply {
        case Ok(updated) =>
          todos := ReplaceById(todos, id, updated);
          settled := Resolved;
        case Err(failure) =>
          error := Some(ErrorMessage(failure, UpdateFallback));
          settled := Rejected(failure);
      }
    }

    /** `deleteTodo`: always sends the request; on success every item with
        that id leaves the list. */
    method DeleteTodo(id: string, reply: ApiReply<()>) returns (call: ApiRequest, settled: Settled)
      modifies this
      ensures loading == old(loading)
      ensures call == DeleteTodoCall(id)
      ensures reply.Ok? ==>
                && todos == RemoveId(old(todos), id)
                && error == None && settled == Resolved
      ensures reply.Err? ==>
                && todos == old(todos)
                && error == Some(ErrorMessage(reply.failure, DeleteFallback))
                && settled == Rejected(reply.failure)
    {
      error := None;
      call := DeleteTodoCall(id);
      match reply {
        case Ok(_) =>
          todos := RemoveId(todos, id);
          settled := Resolved;
        case Err(failure) =>
          error := Some(ErrorMessage(failure, DeleteFallback));
          settled := Rejected(failure);
      }
    }
  }

  /** Loading an empty list, then adding: blank text is ignored, other text
      puts the server's todo in front. Stated over the contracts above. */
  method AddScenario(blank: string, text: string, created: Todo)
    requires Blank(blank) && !Blank(text)
  {
    var state := new TodosState();
    var load := state.LoadTodos(Ok([]));
    assert state.todos == [] && !state.loading && state.error == None;
    var call, settled := state.AddTodo(blank, Ok(created));
    assert call == None && state.todos == [];
    call, settled := state.AddTodo(text, Ok(created));
    assert state.todos == [created] && settled == Resolved;
  }

  /** Toggling in a one-item list: an absent id is ignored, the present one
      asks for the negated flag and takes the server's copy. */
  method ToggleScenario(created: Todo, toggled: Todo)
    requires created.id == toggled.id && created.id != "non-existent-id"
  {
    var state := new TodosState();
    var load := state.LoadTodos(Ok([created]));
    assert !HasId([created], "non-existent-id");
    var call, settled := state.ToggleTodo("non-existent-id", Ok(toggled));
    assert call == None && state.todos == [created];
    assert HasId([created], created.id) by { assert [created][0].id == created.id; }
    call, settled := state.ToggleTodo(created.id, Ok(toggled));
    assert call == Some(UpdateTodoCall(created.id, UpdateTodoDto(None, Some(!created.completed))));
    assert state.todos == [toggled];
  }

  /** Deleting from a one-item list: a failed delete keeps the list and
      records the message, a successful one empties it. */
  method DeleteScenario(created: Todo)
  {
    var state := new TodosState();
    var load := state.LoadTodos(Ok([created]));
    var call, settled := state.DeleteTodo(created.id, Err(ErrorObject("Failed to delete todo: Not Found")));
    assert state.todos == [created] && state.error == Some("Failed to delete todo: Not Found");
    assert settled.Rejected?;
    call, settled := state.DeleteTodo(created.id, Ok(()));
    assert state.todos == [] && state.error == None;
  }
}
