/**
 * The paginated list page: what it asks the list route for, how many
 * pages it shows, which pagination buttons it enables and where they
 * lead, and when it sends a new todo.
 *
 * A JavaScript number read from the URL is `Option<int>`: `None` is NaN,
 * which is what `parseInt` gives for a page value with no digits.
 */
module TodoListView {
  import opened Wrappers
  import opened Text
  import opened TodoTypes
  import opened SearchParams
  import TodosRoute
  import opened TodoItemView
  import TodoServiceModel

  /** Items per page; the list always asks for this many. */
  const Limit := 5

  /** `Math.ceil(n / d)` for natural numbers. */
  function CeilDiv(n: nat, d: nat): (q: nat)
    requires d >= 1
    ensures n <= q * d
    ensures n > 0 ==> q >= 1 && (q - 1) * d < n
    ensures n == 0 ==> q == 0
  {
    var q := (n + d - 1) / d;
    var r := (n + d - 1) % d;
    assert n + d - 1 == q * d + r;
    assert (q - 1) * d == q * d - d;
    q
  }

  /**
   * `totalPages`: `Math.max(1, Math.ceil(total / limit))` once a reply is
   * in, 1 before. It is at least 1, and for a non-empty set it is the
   * least page count whose pages hold every item.
   */
  function TotalPages(data: Option<ApiResponse<Todo>>, limit: nat): (r: nat)
    requires limit >= 1
    ensures r >= 1
    ensures data.None? || data.value.total == 0 ==> r == 1
    ensures data.Some? && data.value.total > 0 ==> (r - 1) * limit < data.value.total <= r * limit
  {
    if data.None? then 1
    else
      var q := CeilDiv(data.value.total, limit);
      if q < 1 then 1 else q
  }

  /** `n.toString()` for a number that may be NaN. */
  function NumberToString(n: Option<int>): (r: string)
    ensures n.None? <==> r == "NaN"
    ensures n.Some? ==> r != [] && (r[0] == '-' <==> n.value < 0)
  {
    if n.None? then "NaN" else IntToString(n.value)
  }

  /** `page`: `parseInt(searchParams.get('page') || '1')`. */
  function PageOf(query: seq<Param>): (page: Option<int>)
    ensures Get(query, "page").None? || Get(query, "page") == Some("") ==> page == Some(1)
  {
    ParseIntOfIntToString(1);
    ParseInt(OrElse(Get(query, "page"), "1"))
  }

  /** The query string `router.push('?page=' + n)` installs. */
  function PageQuery(page: Option<int>): (query: seq<Param>)
    ensures Get(query, "page") == Some(NumberToString(page))
    ensures forall name :: name != "page" ==> Get(query, name).None?
  {
    [Param("page", NumberToString(page))]
  }

  /** After a push to page `n` the list reads page `n` back; a push of NaN reads back as NaN. */
  lemma PushedPageIsRead(page: Option<int>)
    ensures PageOf(PageQuery(page)) == page
  {
    if page.Some? {
      ParseIntOfIntToString(page.value);
    } else {
      assert !IsWhitespace('N') && !IsDigit('N', 10);
      assert SkipWhitespace("NaN", 0) == 0;
      assert DigitPrefix("NaN", 10) == [];
    }
  }

  /**
   * The query `getTodos` sends: `page` and `limit` always, in that order,
   * then `search` and `status` only when non-empty.
   */
  function GetTodosParams(page: Option<int>, limit: int, search: string, status: string): (params: seq<Param>)
    ensures Get(params, "page") == Some(NumberToString(page))
    ensures Get(params, "limit") == Some(IntToString(limit))
    ensures Get(params, "search") == if search != "" then Some(search) else None
    ensures Get(params, "status") == if status != "" then Some(status) else None
    ensures |params| == 2 + (if search != "" then 1 else 0) + (if status != "" then 1 else 0)
  {
    var params := [Param("page", NumberToString(page)), Param("limit", IntToString(limit))]
      + (if search != "" then [Param("search", search)] else [])
      + (if status != "" then [Param("status", status)] else []);
    ParamsCarryPaging(params, NumberToString(page), IntToString(limit), search, status);
    ParamsCarrySearch(params, NumberToString(page), IntToString(limit), search, status);
    ParamsCarryStatus(params, NumberToString(page), IntToString(limit), search, status);
    params
  }

  lemma ParamsCarryPaging(params: seq<Param>, pageText: string, limitText: string, search: string, status: string)
    requires params == [Param("page", pageText), Param("limit", limitText)]
      + (if search != "" then [Param("search", search)] else [])
      + (if status != "" then [Param("status", status)] else [])
    ensures Get(params, "page") == Some(pageText)
    ensures Get(params, "limit") == Some(limitText)
  {
    assert "page" != "limit" && "page" != "search" && "page" != "status";
    assert "limit" != "search" && "limit" != "status";
    GetSole(params, "page", pageText);
    GetSole(params, "limit", limitText);
  }

  lemma ParamsCarrySearch(params: seq<Param>, pageText: string, limitText: string, search: string, status: string)
    requires params == [Param("page", pageText), Param("limit", limitText)]
      + (if search != "" then [Param("search", search)] else [])
      + (if status != "" then [Param("status", status)] else [])
    ensures Get(params, "search") == if search != "" then Some(search) else None
  {
    assert "page" != "search" && "limit" != "search" && "status" != "search";
    if search != "" { GetSole(params, "search", search); } else { GetAbsent(params, "search"); }
  }

  lemma ParamsCarryStatus(params: seq<Param>, pageText: string, limitText: string, search: string, status: string)
    requires params == [Param("page", pageText), Param("limit", limitText)]
      + (if search != "" then [Param("search", search)] else [])
      + (if status != "" then [Param("status", status)] else [])
    ensures Get(params, "status") == if status != "" then Some(status) else None
  {
    assert "page" != "status" && "limit" != "status" && "search" != "status";
    if status != "" { GetSole(params, "status", status); } else { GetAbsent(params, "status"); }
  }

  /**
   * The route reads back exactly what the list sent: the page, a limit of
   * 5, the search text and the status filter, so its paging checks pass
   * for any page from 1 up.
   */
  lemma ListQueryReadByRoute(page: int, search: string, status: string)
    requires page >= 1
    ensures var q := TodosRoute.ReadQuery(GetTodosParams(Some(page), Limit, search, status));
      && TodosRoute.PageOf(q) == Some(page)
      && TodosRoute.LimitOf(q) == Some(Limit)
      && TodosRoute.SearchOf(q) == search
      && TodosRoute.StatusOf(q) == status
      && TodosRoute.PagingValid(q)
  {
    ParseIntOfIntToString(page);
    ParseIntOfIntToString(Limit);
  }

  /**
   * The first-page and Prev buttons are disabled exactly on page 1, that
   * is, exactly where Prev would lead to page 0.
   */
  predicate BackDisabled(page: Option<int>)
    ensures page.Some? ==> (BackDisabled(page) <==> Plus(page, -1) == Some(0))
  {
    page == Some(1)
  }

  /**
   * The Next button is disabled exactly on the last page; while the bar
   * is shown, Next and Prev are never both disabled.
   */
  predicate NextDisabled(page: Option<int>, totalPages: nat)
    ensures NextDisabled(page, totalPages) ==> page.Some? && page.value == totalPages
    ensures totalPages > 1 && NextDisabled(page, totalPages) ==> !BackDisabled(page)
  {
    page == Some(totalPages)
  }

  /**
   * The pagination bar appears only when there is more than one page, so
   * whenever it is shown page 1 can go forward and the last page back.
   */
  predicate NavShown(totalPages: nat)
    ensures NavShown(totalPages) ==> !NextDisabled(Some(1), totalPages) && !BackDisabled(Some(totalPages))
  {
    totalPages > 1
  }

  function Plus(page: Option<int>, d: int): Option<int> {
    if page.None? then None else Some(page.value + d)
  }

  /** From any page inside the range, an enabled Prev or Next leads to a page inside the range. */
  lemma NavigationStaysInRange(page: int, totalPages: nat)
    requires 1 <= page <= totalPages
    ensures !BackDisabled(Some(page)) ==> 1 <= Plus(Some(page), -1).value <= totalPages
    ensures !NextDisabled(Some(page), totalPages) ==> 1 <= Plus(Some(page), 1).value <= totalPages
  {
  }

  /**
   * Next is disabled only on the page equal to the page count, so on a
   * page past the last one (reachable through the URL) it stays enabled
   * and leads further out.
   */
  lemma NextEnabledPastLastPage(page: int, totalPages: nat)
    requires page > totalPages
    ensures !NextDisabled(Some(page), totalPages)
    ensures Plus(Some(page), 1).value > totalPages
  {
  }

  /** What the row's requests become: `updateTodo` with one field, or `deleteTodo`. */
  datatype Mutation = Update(id: int, data: TodoFormData) | Remove(id: int)

  /** `handleToggle` sends only `completed`, `handleEdit` only `todo`, `handleDelete` the id. */
  function MutationFor(call: ItemCall): (m: Mutation)
    ensures call.Toggle? ==> m == Update(call.id, TodoFormData(None, Some(call.completed)))
    ensures call.Edit? ==> m == Update(call.id, TodoFormData(Some(call.text), None))
    ensures call.Delete? <==> m.Remove?
    ensures m.id == call.id
  {
    match call
    case Toggle(id, completed) => Update(id, TodoFormData(None, Some(completed)))
    case Edit(id, text) => Update(id, TodoFormData(Some(text), None))
    case Delete(id) => Remove(id)
  }

  /** Under the partial-update rule of `updateDoc`, a toggle request writes the completion and nothing else. */
  lemma ToggleWritesOnlyCompleted(d: TodoServiceModel.TodoDoc, id: int, completed: bool)
    ensures MutationFor(Toggle(id, completed)).Update?
    ensures TodoServiceModel.ApplyEdit(d, MutationFor(Toggle(id, completed)).data) == d.(completed := completed)
  {
  }

  /** Under the same rule, an edit request writes the text and nothing else. */
  lemma EditWritesOnlyText(d: TodoServiceModel.TodoDoc, id: int, text: string)
    ensures MutationFor(Edit(id, text)).Update?
    ensures TodoServiceModel.ApplyEdit(d, MutationFor(Edit(id, text)).data) == d.(todo := text)
  {
  }

  /** The text the list sends is one the create route accepts and stores as it is. */
  lemma SentTextStoredAsIs(newTodo: string)
    requires !IsBlank(newTodo)
    ensures !IsBlank(Trim(newTodo)) && Trim(Trim(newTodo)) == Trim(newTodo)
  {
    TrimIdempotent(newTodo);
  }

  /**
   * The list page's state: the three inputs and the URL query string,
   * from which the current page is read.
   */
  class TodoList {
    var newTodo: string
    var searchText: string
    var filterStatus: string
    var query: seq<Param>

    constructor (query: seq<Param>)
      ensures newTodo == "" && searchText == "" && filterStatus == "" && this.query == query
    {
      newTodo := "";
      searchText := "";
      filterStatus := "";
      this.query := query;
    }

    /** The current page: 1 when the URL has no page value or an empty one. */
    function Page(): (page: Option<int>)
      reads this
      ensures Get(query, "page").None? || Get(query, "page") == Some("") ==> page == Some(1)
    {
      PageOf(query)
    }

    /** The query the list is showing; the route reads it as `ListQueryReadByRoute` says. */
    function Request(): (params: seq<Param>)
      reads this
      ensures Get(params, "limit") == Some(IntToString(Limit))
    {
      GetTodosParams(Page(), Limit, searchText, filterStatus)
    }

    method SetNewTodo(text: string)
      modifies this`newTodo
      ensures newTodo == text
    {
      newTodo := text;
    }

    /** Typing a search changes the request but, unlike the filter, keeps the page. */
    method SetSearchText(text: string)
      modifies this`searchText
      ensures searchText == text
    {
      searchText := text;
    }

    /** `handleAddTodo`: a blank input sends nothing; otherwise the trimmed input is sent. */
    method HandleAddTodo() returns (sent: Option<string>)
      ensures sent.None? <==> IsBlank(newTodo)
      ensures sent.Some? ==> sent.value == Trim(newTodo) && !IsBlank(sent.value)
      ensures sent.None? <==> AddDisabled(false)
    {
      if IsBlank(newTodo) {
        return None;
      }
      SentTextStoredAsIs(newTodo);
      sent := Some(Trim(newTodo));
    }

    /** The add button is disabled while an add is in flight or the input is blank. */
    predicate AddDisabled(isPending: bool)
      reads this
      ensures !AddDisabled(isPending) ==> !IsBlank(Trim(newTodo)) && Trim(Trim(newTodo)) == Trim(newTodo)
    {
      TrimIdempotent(newTodo);
      isPending || IsBlank(newTodo)
    }

    /** After a successful add the input is cleared and the list goes back to page 1. */
    method AddSucceeded()
      modifies this`newTodo, this`query
      ensures newTodo == "" && query == PageQuery(Some(1)) && Page() == Some(1)
    {
      newTodo := "";
      query := PageQuery(Some(1));
      PushedPageIsRead(Some(1));
    }

    /** Choosing a status filter also goes back to page 1. */
    method ChangeFilter(status: string)
      modifies this`filterStatus, this`query
      ensures filterStatus == status && query == PageQuery(Some(1)) && Page() == Some(1)
    {
      filterStatus := status;
      query := PageQuery(Some(1));
      PushedPageIsRead(Some(1));
    }

    /** "Back to page 1", on the bar that is shown: does nothing on page 1, otherwise shows page 1. */
    method ClickFirst(totalPages: nat)
      requires NavShown(totalPages)
      modifies this`query
      ensures if BackDisabled(old(Page())) then query == old(query) else query == PageQuery(Some(1)) && Page() == Some(1)
    {
      if !BackDisabled(Page()) {
        query := PageQuery(Some(1));
        PushedPageIsRead(Some(1));
      }
    }

    /** Prev, on the bar that is shown: does nothing on page 1, otherwise shows the page before. */
    method ClickPrev(totalPages: nat)
      requires NavShown(totalPages)
      modifies this`query
      ensures if BackDisabled(old(Page())) then query == old(query)
        else query == PageQuery(Plus(old(Page()), -1)) && Page() == Plus(old(Page()), -1)
    {
      if !BackDisabled(Page()) {
        var target := Plus(Page(), -1);
        query := PageQuery(target);
        PushedPageIsRead(target);
      }
    }

    /** Next, on the bar that is shown: does nothing on the last page, otherwise shows the page after. */
    method ClickNext(totalPages: nat)
      requires NavShown(totalPages)
      modifies this`query
      ensures if NextDisabled(old(Page()), totalPages) then query == old(query)
        else query == PageQuery(Plus(old(Page()), 1)) && Page() == Plus(old(Page()), 1)
    {
      if !NextDisabled(Page(), totalPages) {
        var target := Plus(Page(), 1);
        query := PageQuery(target);
        PushedPageIsRead(target);
      }
    }
  }
}
