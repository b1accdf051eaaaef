/**
 * The relational `/api/todos` route. GET lists the caller's todos with an
 * optional text search and completion filter, newest first, one page at a
 * time, with the size of the whole filtered set; POST creates a todo for
 * the caller. The session is an optional user id and the table is a
 * sequence of rows read and written by the ORM.
 */
module TodosRoute {
  import opened Wrappers
  import opened Text
  import opened TodoTypes
  import opened SearchParams
  import Ordering

  /** A JSON reply: an HTTP status with `{ error }`, or with a body. */
  datatype Response<T> = Failure(status: nat, error: string) | Success(status: nat, body: T)

  const UnauthorizedError := "Unauthorized"
  const TextRequiredError := "Todo text is required"

  /** The four query values the list route reads, each absent or a string. */
  datatype ListQuery = ListQuery(page: Option<string>, limit: Option<string>, search: Option<string>, status: Option<string>)

  function ReadQuery(params: seq<Param>): (q: ListQuery)
    ensures (forall i :: 0 <= i < |params| ==> params[i].name != "page" && params[i].name != "limit") ==>
      PageOf(q) == Some(1) && LimitOf(q) == Some(10)
  {
    ListQuery(Get(params, "page"), Get(params, "limit"), Get(params, "search"), Get(params, "status"))
  }

  /** `parseInt(searchParams.get('page') || '1')` */
  function PageOf(q: ListQuery): (page: Option<int>)
    ensures q.page.None? || q.page == Some("") ==> page == Some(1)
  {
    ParseIntOfIntToString(1);
    assert IntToString(1) == "1";
    ParseInt(OrElse(q.page, "1"))
  }

  /** `parseInt(searchParams.get('limit') || '10')` */
  function LimitOf(q: ListQuery): (limit: Option<int>)
    ensures q.limit.None? || q.limit == Some("") ==> limit == Some(10)
  {
    ParseIntOfIntToString(10);
    assert IntToString(10) == "10";
    ParseInt(OrElse(q.limit, "10"))
  }

  /** `searchParams.get('search') || ''`: the search text, empty when the pair is absent. */
  function SearchOf(q: ListQuery): (search: string)
    ensures q.search.None? ==> search == ""
    ensures q.search.Some? ==> search == q.search.value
  {
    OrElse(q.search, "")
  }

  /** `searchParams.get('status') || ''`: the status filter, empty when the pair is absent. */
  function StatusOf(q: ListQuery): (status: string)
    ensures q.status.None? ==> status == ""
    ensures q.status.Some? ==> status == q.status.value
  {
    OrElse(q.status, "")
  }

  /** Page and limit are numbers of at least 1. */
  predicate PagingValid(q: ListQuery) {
    PageOf(q).Some? && PageOf(q).value >= 1 && LimitOf(q).Some? && LimitOf(q).value >= 1
  }



  /** The `where` object handed to the ORM: the owner always, a text condition and a completion condition when set. */
  datatype Where = Where(userId: int, contains: Option<string>, completed: Option<bool>)

  predicate Matches(w: Where, t: Todo) {
    && t.userId == w.userId
    && (w.contains.Some? ==> Contains(t.todo, w.contains.value))
    && (w.completed.Some? ==> t.completed == w.completed.value)
  }

  /**
   * The condition GET builds: the caller's rows, holding `search` when it
   * is non-empty, completed for status `completed`, not completed for
   * status `incomplete`, and no completion condition for any other status.
   */
  function BuildWhere(userId: int, search: string, status: string): (w: Where)
    ensures forall t :: Matches(w, t) <==>
      && t.userId == userId
      && (search != "" ==> Contains(t.todo, search))
      && (status == "completed" ==> t.completed)
      && (status == "incomplete" ==> !t.completed)
  {
    var w := Where(userId, None, None);
    var w := if search != "" then w.(contains := Some(search)) else w;
    if status == "completed" then w.(completed := Some(true))
    else if status == "incomplete" then w.(completed := Some(false))
    else w
  }

  /** The rows that meet `w`, in table order. */
  function Filter(rows: seq<Todo>, w: Where): (r: seq<Todo>)
    ensures |r| <= |rows|
  {
    if rows == [] then []
    else (if Matches(w, rows[0]) then [rows[0]] else []) + Filter(rows[1..], w)
  }

  /** Filter keeps each matching row as often as the table holds it, and no other row. */
  lemma {:induction false} FilterCount(rows: seq<Todo>, w: Where, t: Todo)
    ensures multiset(Filter(rows, w))[t] == if Matches(w, t) then multiset(rows)[t] else 0
  {
    if rows != [] {
      assert rows == [rows[0]] + rows[1..];
      FilterCount(rows[1..], w, t);
    }
  }

  lemma FilterMembers(rows: seq<Todo>, w: Where)
    ensures forall t :: t in multiset(Filter(rows, w)) <==> t in rows && Matches(w, t)
  {
    forall t ensures t in multiset(Filter(rows, w)) <==> t in rows && Matches(w, t) {
      FilterCount(rows, w, t);
    }
  }

  lemma {:induction false} FilterAppend(a: seq<Todo>, b: seq<Todo>, w: Where)
    ensures Filter(a + b, w) == Filter(a, w) + Filter(b, w)
  {
    if a == [] {
      assert a + b == b;
    } else {
      assert (a + b)[0] == a[0];
      assert (a + b)[1..] == a[1..] + b;
      FilterAppend(a[1..], b, w);
    }
  }

  function Min(a: int, b: int): int {
    if a <= b then a else b
  }

  /** ORM `skip`/`take`: at most `take` items, starting at index `skip`. */
  function SkipTake<T>(s: seq<T>, skip: nat, take: nat): (r: seq<T>)
    ensures |r| == if skip >= |s| then 0 else Min(take, |s| - skip)
    ensures forall i :: 0 <= i < |r| ==> r[i] == s[skip + i]
  {
    if skip >= |s| then [] else s[skip..Min(skip + take, |s|)]
  }

  /** `(page - 1) * limit`: how many rows come before the page. */
  function Offset(page: int, limit: int): (skip: nat)
    requires page >= 1 && limit >= 1
  {
    var before: nat := page - 1;
    var size: nat := limit;
    before * size
  }

  function CreatedAt(t: Todo): nat {
    t.createdAt
  }

  function QueryWhere(userId: int, q: ListQuery): Where {
    BuildWhere(userId, SearchOf(q), StatusOf(q))
  }

  /** The rows a query selects, newest first, before paging. */
  function Ranked(userId: int, q: ListQuery, rows: seq<Todo>): (r: seq<Todo>)
    ensures |r| == |Filter(rows, QueryWhere(userId, q))|
    ensures multiset(r) == multiset(Filter(rows, QueryWhere(userId, q)))
    ensures Ordering.NewestFirst(r, CreatedAt)
  {
    var matching := Filter(rows, QueryWhere(userId, q));
    var r := Ordering.SortNewestFirst(matching, CreatedAt);
    assert |multiset(r)| == |multiset(matching)|;
    r
  }

  /** Every ranked row is a row of the table that the query's filter accepts. */
  lemma RankedMembers(userId: int, q: ListQuery, rows: seq<Todo>)
    ensures forall t :: t in Ranked(userId, q, rows) ==> t in rows && Matches(QueryWhere(userId, q), t)
  {
    var w := QueryWhere(userId, q);
    FilterMembers(rows, w);
    forall t | t in Ranked(userId, q, rows) ensures t in rows && Matches(w, t) {
      assert t in multiset(Ranked(userId, q, rows));
      assert t in multiset(Filter(rows, w));
    }
  }

  /** A window of a newest-first sequence is newest first and holds only items of the sequence. */
  lemma WindowOfRanked(s: seq<Todo>, skip: nat, take: nat)
    requires Ordering.NewestFirst(s, CreatedAt)
    ensures Ordering.NewestFirst(SkipTake(s, skip, take), CreatedAt)
    ensures forall t :: t in SkipTake(s, skip, take) ==> t in s
  {
    var r := SkipTake(s, skip, take);
    forall t | t in r ensures t in s {
      var i :| 0 <= i < |r| && r[i] == t;
      assert s[skip + i] == t;
    }
  }

  /** Page `page` of a newest-first sequence, `limit` items per page: `skip`/`take` at `(page - 1) * limit`. */
  function PageWindow(ranked: seq<Todo>, page: int, limit: int): (data: seq<Todo>)
    requires page >= 1 && limit >= 1
    requires Ordering.NewestFirst(ranked, CreatedAt)
    ensures Ordering.NewestFirst(data, CreatedAt)
    ensures forall t :: t in data ==> t in ranked
    ensures var skip := Offset(page, limit);
      && |data| == (if skip >= |ranked| then 0 else Min(limit, |ranked| - skip))
      && forall i :: 0 <= i < |data| ==> data[i] == ranked[skip + i]
  {
    WindowOfRanked(ranked, Offset(page, limit), limit);
    SkipTake(ranked, Offset(page, limit), limit)
  }

  /**
   * The page a query selects: the matching rows ranked newest first,
   * starting at `(page - 1) * limit` and at most `limit` long (empty past
   * the end), with the number of all matching rows whatever the page, and
   * the page and limit used.
   */
  function ListPage(userId: int, q: ListQuery, rows: seq<Todo>): (body: ApiResponse<Todo>)
    requires PagingValid(q)
    ensures forall t :: t in body.data ==> t in rows && Matches(QueryWhere(userId, q), t)
    ensures Ordering.NewestFirst(body.data, CreatedAt)
    ensures body.total == |Filter(rows, QueryWhere(userId, q))|
    ensures body.page == PageOf(q).value && body.limit == LimitOf(q).value
    ensures body.data == PageWindow(Ranked(userId, q, rows), body.page, body.limit)
  {
    var page := PageOf(q).value;
    var limit := LimitOf(q).value;
    var w := QueryWhere(userId, q);
    var ranked := Ranked(userId, q, rows);
    var todos := PageWindow(ranked, page, limit);
    RankedMembers(userId, q, rows);
    ApiResponse(todos, |Filter(rows, w)|, page, limit)
  }

  /**
   * GET /api/todos. Without a session: 401, whatever the table holds.
   * With one: 200 and the page `ListPage` selects, in which every todo
   * belongs to the caller, holds the search text when one is given, and
   * is completed (not completed) when the status is `completed`
   * (`incomplete`).
   */
  function ListTodos(session: Option<int>, q: ListQuery, rows: seq<Todo>): (r: Response<ApiResponse<Todo>>)
    requires session.Some? ==> PagingValid(q)
    ensures session.None? ==> r == Failure(401, UnauthorizedError)
    ensures session.Some? ==> r == Success(200, ListPage(session.value, q, rows))
    ensures r.Success? ==> forall t :: t in r.body.data ==> t in rows && t.userId == session.value
    ensures r.Success? && SearchOf(q) != "" ==> forall t :: t in r.body.data ==> Contains(t.todo, SearchOf(q))
    ensures r.Success? && StatusOf(q) == "completed" ==> forall t :: t in r.body.data ==> t.completed
    ensures r.Success? && StatusOf(q) == "incomplete" ==> forall t :: t in r.body.data ==> !t.completed
  {
    if session.None? then Failure(401, UnauthorizedError)
    else Success(200, ListPage(session.value, q, rows))
  }

  /** How many todos the list reports does not depend on the page or the limit asked for. */
  lemma TotalIgnoresPaging(userId: int, q1: ListQuery, q2: ListQuery, rows: seq<Todo>)
    requires PagingValid(q1) && PagingValid(q2)
    requires SearchOf(q1) == SearchOf(q2) && StatusOf(q1) == StatusOf(q2)
    ensures ListPage(userId, q1, rows).total == ListPage(userId, q2, rows).total
  {
  }

  /** A page that starts at or past the end of the matching rows is empty, and still reports their number. */
  lemma PagePastEndIsEmpty(userId: int, q: ListQuery, rows: seq<Todo>)
    requires PagingValid(q)
    requires Offset(PageOf(q).value, LimitOf(q).value) >= |Filter(rows, QueryWhere(userId, q))|
    ensures ListPage(userId, q, rows).data == []
    ensures ListPage(userId, q, rows).total == |Filter(rows, QueryWhere(userId, q))|
  {
  }

  /** A row owned by someone else changes nothing in a user's list. */
  lemma OtherOwnersRowInvisible(userId: int, q: ListQuery, rows: seq<Todo>, t: Todo)
    requires PagingValid(q) && t.userId != userId
    ensures ListPage(userId, q, rows + [t]) == ListPage(userId, q, rows)
  {
    var w := QueryWhere(userId, q);
    FilterAppend(rows, [t], w);
    assert Filter([t], w) == [] by {
      assert !Matches(w, t);
      assert Filter([t], w) == [] + Filter([t][1..], w);
    }
    assert rows + [t] != [] && Filter(rows + [t], w) == Filter(rows, w);
  }

  /** A matching row newer than every other row comes first in the ranking. */
  lemma NewestRowRanksFirst(userId: int, q: ListQuery, rows: seq<Todo>, t: Todo)
    requires Matches(QueryWhere(userId, q), t)
    requires forall i :: 0 <= i < |rows| ==> rows[i].createdAt < t.createdAt
    ensures |Ranked(userId, q, rows + [t])| >= 1 && Ranked(userId, q, rows + [t])[0] == t
  {
    var w := QueryWhere(userId, q);
    var all := rows + [t];
    var matching := Filter(all, w);
    var ranked := Ranked(userId, q, all);
    FilterMembers(all, w);
    assert t in all by { assert all[|rows|] == t; }
    assert t in multiset(matching);
    assert t in ranked by { assert t in multiset(ranked); }
    forall y | y in ranked && y != t ensures CreatedAt(y) < CreatedAt(t) {
      assert y in multiset(matching) by { assert y in multiset(ranked); }
      assert y in all;
      var i :| 0 <= i < |all| && all[i] == y;
      assert i < |rows|;
    }
    Ordering.StrictlyNewestIsFirst(ranked, t, CreatedAt);
  }

  /** A row newer than every other row leads page 1 of any list it matches. */
  lemma NewestRowLeadsFirstPage(userId: int, q: ListQuery, rows: seq<Todo>, t: Todo)
    requires PagingValid(q) && PageOf(q) == Some(1)
    requires Matches(QueryWhere(userId, q), t)
    requires forall i :: 0 <= i < |rows| ==> rows[i].createdAt < t.createdAt
    ensures var body := ListPage(userId, q, rows + [t]);
      |body.data| >= 1 && body.data[0] == t
  {
    NewestRowRanksFirst(userId, q, rows, t);
    var body := ListPage(userId, q, rows + [t]);
    assert Offset(body.page, body.limit) == 0 by {
      assert body.page == 1;
    }
  }

  /** The relational table behind the route: its rows, the next autoincrement id and the clock that stamps new rows. */
  class TodoTable {
    var rows: seq<Todo>
    var nextId: int
    var clock: nat

    /**
     * Ids increase along the table and lie below `nextId`; every row was
     * stamped before `clock`, and later rows carry later stamps, so no two
     * rows tie on `createdAt`.
     */
    ghost predicate Valid()
      reads this
    {
      && nextId >= 1
      && (forall i :: 0 <= i < |rows| ==> 1 <= rows[i].id < nextId && rows[i].createdAt < clock)
      && (forall i, j :: 0 <= i < j < |rows| ==> rows[i].id < rows[j].id)
      && (forall i, j :: 0 <= i < j < |rows| ==> rows[i].createdAt < rows[j].createdAt)
    }

    constructor ()
      ensures Valid() && rows == [] && nextId == 1
    {
      rows := [];
      nextId := 1;
      clock := 0;
    }

    /**
     * POST /api/todos. Without a session: 401. With missing, empty or
     * whitespace-only text: 400. Otherwise one row is appended holding the
     * trimmed text, not completed, owned by the caller, newer than every
     * row before it, and returned with 201; nothing else changes.
     */
    method Post(session: Option<int>, todo: Option<string>) returns (r: Response<Todo>)
      requires Valid()
      modifies this
      ensures Valid()
      ensures session.None? ==> r == Failure(401, UnauthorizedError)
      ensures session.Some? && (todo.None? || IsBlank(todo.value)) ==> r == Failure(400, TextRequiredError)
      ensures r.Failure? ==> rows == old(rows) && nextId == old(nextId) && clock == old(clock)
      ensures session.Some? && todo.Some? && !IsBlank(todo.value) ==>
        && r.Success? && r.status == 201
        && r.body == Todo(old(nextId), Trim(todo.value), false, session.value, old(clock), old(clock))
        && rows == old(rows) + [r.body]
      ensures r.Success? ==> forall i :: 0 <= i < |old(rows)| ==> old(rows)[i].createdAt < r.body.createdAt
    {
      if session.None? {
        return Failure(401, UnauthorizedError);
      }
      if todo.None? || IsBlank(todo.value) {
        return Failure(400, TextRequiredError);
      }
      var created := Todo(nextId, Trim(todo.value), false, session.value, clock, clock);
      rows := rows + [created];
      nextId := nextId + 1;
      clock := clock + 1;
      r := Success(201, created);
    }
  }
}
