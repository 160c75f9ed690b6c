/** The server's store of todos: one table keyed by id, with `completed`
    kept as the integer 0 or 1. */
module Repository {
  import opened TodoModel

  /** A row of the `todos` table. */
  datatype Row = Row(id: string, text: string, completed: int, createdAt: int)

  /** The message SQLite raises when an INSERT repeats a primary key. */
  const DuplicateIdMessage: string := "UNIQUE constraint failed: todos.id"

  /** How a boolean is written to the `completed` column. */
  function EncodeCompleted(b: bool): (n: int)
    ensures n == 0 || n == 1
    ensures DecodeCompleted(n) == b
  {
    if b then 1 else 0
  }

  /** How the `completed` column is read back: `completed === 1`. */
  function DecodeCompleted(n: int): bool {
    n == 1
  }

  /** A column value that only ever comes from EncodeCompleted is reproduced
      by decoding and encoding again. */
  lemma DecodeEncode(n: int)
    requires n == 0 || n == 1
    ensures EncodeCompleted(DecodeCompleted(n)) == n
  {
  }

  /** A row as the repository hands it out: the columns copied, `completed`
      decoded. */
  function ToTodo(row: Row): (t: Todo)
    ensures t.id == row.id && t.text == row.text && t.createdAt == row.createdAt
  {
    Todo(row.id, row.text, DecodeCompleted(row.completed), row.createdAt)
  }

  /** A todo as it is written by INSERT. */
  function ToRow(t: Todo): (row: Row)
    ensures row.completed == 0 || row.completed == 1
    ensures ToTodo(row) == t
  {
    Row(t.id, t.text, EncodeCompleted(t.completed), t.createdAt)
  }

  /** A row whose `completed` column holds 0 or 1 is written back unchanged
      from the todo it reads as. */
  lemma RowRoundTrip(row: Row)
    requires row.completed == 0 || row.completed == 1
    ensures ToRow(ToTodo(row)) == row
  {
    DecodeEncode(row.completed);
  }

  /** `ORDER BY createdAt DESC`: newest first; ties in any order. */
  predicate SortedByNewest(s: seq<Todo>) {
    forall i, j :: 0 <= i < j < |s| ==> s[i].createdAt >= s[j].createdAt
  }

  /** `l` lists exactly the todos of `contents`, newest first. */
  ghost predicate IsNewestFirstListing(l: seq<Todo>, contents: map<string, Todo>) {
    && SortedByNewest(l)
    && |l| == |contents|
    && forall t :: t in l <==> t.id in contents && contents[t.id] == t
  }

  /** Put `t` into a newest-first list, after every item at least as new. */
  function InsertByNewest(t: Todo, s: seq<Todo>): (r: seq<Todo>)
    requires SortedByNewest(s)
    ensures SortedByNewest(r)
    ensures multiset(r) == multiset(s) + multiset{t}
  {
    if s == [] || s[0].createdAt < t.createdAt then
      NewestFirstHead(s);
      NewestInFront(t, s);
      [t] + s
    else
      var rest := InsertByNewest(t, s[1..]);
      KeepHeadInFront(t, s, rest);
      [s[0]] + rest
  }

  /** Inserting adds exactly one item: the list grows by one, and its items
      are the new one and the old ones. */
  lemma InsertByNewestMembers(t: Todo, s: seq<Todo>)
    requires SortedByNewest(s)
    ensures |InsertByNewest(t, s)| == |s| + 1
    ensures forall u :: u in InsertByNewest(t, s) <==> u == t || u in s
  {
    var r := InsertByNewest(t, s);
    assert |r| == |multiset(r)|;
    forall u ensures u in r <==> u == t || u in s {
      assert u in r <==> u in multiset(r);
      assert u in s <==> u in multiset(s);
    }
  }

  /** When `t` is no newer than the head of `s`, the head stays in front of
      the tail with `t` inserted. */
  lemma KeepHeadInFront(t: Todo, s: seq<Todo>, rest: seq<Todo>)
    requires s != [] && SortedByNewest(s) && t.createdAt <= s[0].createdAt
    requires SortedByNewest(rest) && multiset(rest) == multiset(s[1..]) + multiset{t}
    ensures SortedByNewest([s[0]] + rest)
    ensures multiset([s[0]] + rest) == multiset(s) + multiset{t}
  {
    assert s == [s[0]] + s[1..];
    NewestFirstHead(s);
    assert multiset(s[1..]) <= multiset(s);
    NewestInFront(s[0], rest);
  }

  /** The head of a newest-first list is at least as new as all of it. */
  lemma NewestFirstHead(s: seq<Todo>)
    requires SortedByNewest(s)
    ensures forall u :: u in multiset(s) ==> s[0].createdAt >= u.createdAt
  {
    forall u | u in multiset(s) ensures s[0].createdAt >= u.createdAt {
      var k :| 0 <= k < |s| && s[k] == u;
    }
  }

  /** An item at least as new as every item of a newest-first list can go in
      front of it. */
  lemma NewestInFront(x: Todo, s: seq<Todo>)
    requires SortedByNewest(s)
    requires forall u :: u in multiset(s) ==> x.createdAt >= u.createdAt
    ensures SortedByNewest([x] + s)
  {
    forall i, j | 0 <= i < j < |[x] + s|
      ensures ([x] + s)[i].createdAt >= ([x] + s)[j].createdAt
    {
      assert ([x] + s)[j] == s[j - 1];
      assert s[j - 1] in multiset(s);
      if i > 0 { assert ([x] + s)[i] == s[i - 1]; }
    }
  }

  class TodoRepository {
    /** The `todos` table, by primary key. */
    var rows: map<string, Row>

    /** Each row sits under its own id and holds a 0/1 `completed`. */
    ghost predicate Valid()
      reads this
    {
      forall id :: id in rows ==> rows[id].id == id && (rows[id].completed == 0 || rows[id].completed == 1)
    }

    /** The stored todos as the repository reads them, by id. */
    ghost function Contents(): map<string, Todo>
      reads this
    {
      map id | id in rows :: ToTodo(rows[id])
    }

    /** An empty table. */
    constructor ()
      ensures Valid() && Contents() == map[]
    {
      rows := map[];
    }

    /** Every stored todo, newest first. */
    method FindAll() returns (r: seq<Todo>)
      requires Valid()
      ensures IsNewestFirstListing(r, Contents())
    {
      var pending := rows.Keys;
      ghost var done: set<string> := {};
      r := [];
      while pending != {}
        invariant pending !! done && pending + done == rows.Keys
        invariant SortedByNewest(r)
        invariant |r| == |done|
        invariant forall t :: t in r <==> t.id in done && ToTodo(rows[t.id]) == t
        decreases pending
      {
        var id :| id in pending;
        var t := ToTodo(rows[id]);
        InsertByNewestMembers(t, r);
        r := InsertByNewest(t, r);
        pending := pending - {id};
        done := done + {id};
      }
      assert done == Contents().Keys;
    }

    /** The todo stored under `id`, if any. */
    method FindById(id: string) returns (r: Option<Todo>)
      requires Valid()
      ensures r.None? <==> id !in Contents()
      ensures r.Some? ==> r.value.id == id && r.value == Contents()[id]
    {
      if id in rows {
        r := Some(ToTodo(rows[id]));
      } else {
        r := None;
      }
    }

    /** Insert a new todo under `id` (the generated UUID) stamped `now`, not
        completed. Repeating a stored id fails the primary-key constraint and
        leaves the table as it was. */
    method Create(dto: CreateTodoDto, id: string, now: int) returns (r: Completion<Todo>)
      requires Valid()
      modifies this
      ensures Valid()
      ensures id in old(Contents()) ==> r == Threw(DuplicateIdMessage) && Contents() == old(Contents())
      ensures id !in old(Contents()) ==>
                && r == Returned(Todo(id, dto.text, false, now))
                && Contents() == old(Contents())[id := r.value]
    {
      if id in rows {
        return Threw(DuplicateIdMessage);
      }
      var todo := Todo(id, dto.text, false, now);
      rows := rows[id := ToRow(todo)];
      r := Returned(todo);
    }

    /** Overwrite the fields present in `dto` of the todo stored under `id`;
        `None` when there is none. */
    method Update(id: string, dto: UpdateTodoDto) returns (r: Option<Todo>)
      requires Valid()
      modifies this
      ensures Valid()
      ensures id !in old(Contents()) ==> r == None && Contents() == old(Contents())
      ensures id in old(Contents()) ==>
                && r == Some(Merge(old(Contents())[id], dto))
                && Contents() == old(Contents())[id := r.value]
    {
      var existing := FindById(id);
      if existing.None? {
        return None;
      }
      var updated := Merge(existing.value, dto);
      rows := rows[id := rows[id].(text := updated.text, completed := EncodeCompleted(updated.completed))];
      r := Some(updated);
    }

    /** Remove the todo stored under `id`; says whether a row went away. */
    method Delete(id: string) returns (removed: bool)
      requires Valid()
      modifies this
      ensures Valid()
      ensures removed <==> id in old(Contents())
      ensures Contents() == old(Contents()) - {id}
    {
      removed := id in rows;
      rows := rows - {id};
    }
  }

  /** The unit-test scenarios of the repository, stated over the contracts above. */
  method RepositoryScenario(a: string, b: string, now: int)
    requires a != b
  {
    var repo := new TodoRepository();
    var all := repo.FindAll();
    assert all == [];
    var created := repo.Create(CreateTodoDto("Find Me"), a, now);
    assert created == Returned(Todo(a, "Find Me", false, now));
    var found := repo.FindById(a);
    assert found == Some(created.value);
    var missing := repo.FindById(b);
    assert missing == None;
    var updated := repo.Update(a, UpdateTodoDto(None, Some(true)));
    assert updated == Some(Todo(a, "Find Me", true, now));
    var absent := repo.Update(b, UpdateTodoDto(Some("Updated"), None));
    assert absent == None;
    var deleted := repo.Delete(a);
    assert deleted;
    found := repo.FindById(a);
    assert found == None;
    deleted := repo.Delete(a);
    assert !deleted;
  }
}
