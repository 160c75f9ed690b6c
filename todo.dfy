/** The one record shared by the server and the client: a todo item, and the
    partial-update payloads the API accepts for it. */
module TodoModel {

  datatype Option<+T> = None | Some(value: T) {
    function GetOr(default: T): T {
      match this
      case Some(v) => v
      case None => default
    }
  }

  /** How a call into code that may throw ended: it returned a value, or it
      threw an error carrying a message. */
  datatype Completion<+T> = Returned(value: T) | Threw(message: string)

  /** A todo item. `createdAt` is a timestamp in epoch milliseconds. */
  datatype Todo = Todo(id: string, text: string, completed: bool, createdAt: int)

  /** Body of a create request: only the text. */
  datatype CreateTodoDto = CreateTodoDto(text: string)

  /** Body of an update request: each field may be absent. */
  datatype UpdateTodoDto = UpdateTodoDto(text: Option<string>, completed: Option<bool>)

  /** `{ ...existing, ...dto }`: the fields present in `dto` overwrite those of
      `t`; everything else, in particular `id` and `createdAt`, is kept. */
  function Merge(t: Todo, dto: UpdateTodoDto): (r: Todo)
    ensures r.id == t.id && r.createdAt == t.createdAt
    ensures r.text == (if dto.text.Some? then dto.text.value else t.text)
    ensures r.completed == (if dto.completed.Some? then dto.completed.value else t.completed)
    ensures dto == UpdateTodoDto(None, None) ==> r == t
  {
    t.(text := dto.text.GetOr(t.text), completed := dto.completed.GetOr(t.completed))
  }

  /** Whether some item of `s` carries the id `id`. */
  predicate HasId(s: seq<Todo>, id: string) {
    exists i :: 0 <= i < |s| && s[i].id == id
  }
}
