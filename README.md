# todo-nextjs, modelled and verified in Dafny

This project models the core of a Next.js todo application. It has two back ends and a React front end.

- **The relational list route** (`GET` and `POST /api/todos`) works on a table of todos.
  - `GET` reads `page`, `limit`, `search` and `status` from the query string. It builds a filter from them: always the caller as owner, a substring condition on the text when a search is given, and a completion condition for `completed` or `incomplete`. It returns one page of the matching rows, newest first, with the number of all matching rows.
  - `POST` rejects missing or blank text and stores the trimmed text for the caller.
- **The document-store service** (`TodoService`) keeps documents keyed by id.
  - `getTodoById` hides other users' documents.
  - `addTodo` adds a document under a fresh id.
  - `editTodo` writes only the fields it is given, and only for the owner.
  - `deleteTodo` removes only the owner's document.
  - `subscribeTodos` lists the caller's documents, newest first.
- **The list page** (`TodoList`) covers:
  - the request it sends;
  - the page count `max(1, ceil(total / 5))`;
  - the pagination buttons and where they lead;
  - the page reset after an add or a filter change;
  - the add guard (blank input sends nothing, otherwise the trimmed input is sent).
- **The row** (`TodoItem`) covers the edit state machine, the toggle, which asks for the negated state, and the confirm-gated delete.
- **The create/edit form** (`TodoForm`) covers the edit-mode fetch and the submit that dispatches to `editTodo` or `addTodo`.
- **The registration page** checks for a password mismatch first and a short password second. It then asks the identity provider for an account and shows the provider's message or a fallback text. The password inputs also carry `required` and `minLength={6}` (src/app/register/page.tsx:86-90, 117-121), so the browser usually stops a typed short password before `handleSubmit` runs; the model covers `handleSubmit` itself, whatever reaches it.

Layout:

- `wrappers.dfy`: `Option` and `Outcome`.
- `text.dfy`: the JavaScript string operations the code uses, namely `trim`, substring containment, `parseInt`, `toString` and `||` on strings.
- `todo_types.dfy`: the shared record shapes.
- `search_params.dfy`: `URLSearchParams.get`.
- `ordering.dfy`: newest-first ordering.
- `todos_route.dfy`: the list route. `GET` is a function of the table; `POST` is a method of the `TodoTable` class.
- `todo_service.dfy`: the `TodoService` class over a `map` of documents.
- `todo_item.dfy`, `todo_list.dfy`, `todo_form.dfy` and `register_page.dfy`: the UI components, as classes whose fields are the component state.

Modelling choices:

- A component's `useState` values are class fields. An event handler is a method that changes them.
- External effects are values:
  - a navigation (`router.push`) is a returned path;
  - a call the component makes (`onEdit`, `onToggle`, `onDelete`) is a returned request;
  - the answer of a dialog or of the identity provider is a parameter.
- `createdAt` is a natural-number clock owned by the store. It grows with every insert, so a later insert is always newer.
- The relational table assigns autoincrement ids. The document store's fresh id is the decimal numeral of a counter. Any unused id would do; this one makes freshness provable.
- A JavaScript number read from the URL is `Option<int>`, with `None` standing for NaN.

Behaviour worth knowing, as the code has it:

- The model's search is case-sensitive: `contains` (src/app/api/todos/route.ts:26) is given no case-insensitive mode.
- `addTodo` and `editTodo` store the text untrimmed, so a document's text may carry surrounding whitespace.
- The row's edit sends the edit box's text untrimmed.
- Saving a row's edit with the mouse reports the edit from the input's `onBlur` and then lets the Save button's `onClick` run `handleEdit` once more, which puts the row back into editing mode (`TodoItemView.MouseSaveSession`). Saving with Enter ends at rest (`TodoItemView.EnterSaveSession`).
- Next is disabled only on the page equal to the page count, so on a page past the last one it stays enabled (`TodoListView.NextEnabledPastLastPage`).

## Model

| member | source | states |
|---|---|---|
| Text.Trim | src/app/api/todos/route.ts:69-75 | `trim` removes only leading and trailing whitespace; the result is empty exactly when the input is all whitespace, and otherwise starts and ends with a non-whitespace character |
| Text.IsBlank | src/app/api/todos/route.ts:69 | `!s.trim()` holds exactly when the text is empty or all whitespace (also src/components/TodoList.tsx:87, src/components/TodoItem.tsx:18, src/components/TodoForm.tsx:45) |
| Text.OrElse | src/app/api/todos/route.ts:15-18 | JavaScript's or-else on an optional string is the value when present and non-empty and the fallback otherwise, so it is empty only when both are (also src/app/register/page.tsx:40) |
| Text.TrimIdempotent | src/app/api/todos/route.ts:75 | trimming already-trimmed text changes nothing, so the text the list sends is stored as sent |
| Text.ContainsIffOccursAt | src/app/api/todos/route.ts:26 | the `contains` test used for search holds exactly when the search text occurs at some position of the todo's text |
| Text.NatToString | src/components/TodoList.tsx:11-12 | the numeral of a number is a non-empty run of decimal digits with no leading zero ("0" for zero) |
| Text.IntToString | src/components/TodoList.tsx:11-12 | `n.toString()` is non-empty, starts with a minus sign exactly for negative `n`, and is all digits otherwise |
| Text.ParseInt | src/app/api/todos/route.ts:15-16 | `parseInt` of empty or whitespace-only text is NaN; on numerals see the next rows |
| Text.NatToStringValue | src/components/TodoList.tsx:11-12 | the digits of a numeral denote the number it was made from |
| Text.ParseDecimal | src/app/api/todos/route.ts:15-16 | `parseInt` reads a string of decimal digits as its value |
| Text.ParseNegatedDecimal | src/app/api/todos/route.ts:15-16 | `parseInt` reads a minus sign followed by decimal digits as the negated value |
| Text.ParseIntOfIntToString | src/components/TodoList.tsx:53 | `parseInt(n.toString())` gives back `n` for every integer, so a page pushed into the URL is read back unchanged |
| Text.IntToStringInjective | src/components/TodoList.tsx:11 | distinct page numbers give distinct `page` values in the request |
| SearchParams.Get | src/app/api/todos/route.ts:14-18 | `searchParams.get` is null exactly when no pair has that name; otherwise it is the value of the first pair with that name |
| Ordering.Insert | src/app/api/todos/route.ts:40 | inserting into a newest-first sequence keeps it newest first and adds that one element to its contents |
| Ordering.SortNewestFirst | src/app/api/todos/route.ts:40 | `orderBy: { createdAt: 'desc' }` yields a newest-first permutation of its input |
| Ordering.StrictlyNewestIsFirst | src/services/todoService.ts:25 | in a newest-first sequence, an element strictly newer than all others comes first |
| TodosRoute.ReadQuery | src/app/api/todos/route.ts:14-18 | a query string with no page and no limit pair lists page 1 with limit 10 |
| TodosRoute.PageOf | src/app/api/todos/route.ts:15 | an absent or empty page value reads as page 1 |
| TodosRoute.LimitOf | src/app/api/todos/route.ts:16 | an absent or empty limit value reads as limit 10 |
| TodosRoute.SearchOf | src/app/api/todos/route.ts:17 | the search value read with an empty fallback: the value, or empty when the pair is absent |
| TodosRoute.StatusOf | src/app/api/todos/route.ts:18 | the status value read with an empty fallback: the value, or empty when the pair is absent |
| TodosRoute.BuildWhere | src/app/api/todos/route.ts:23-33 | a row passes the filter exactly when it is the caller's, contains a non-empty search text, and matches `completed`/`incomplete`; another status imposes nothing |
| TodosRoute.Filter | src/app/api/todos/route.ts:36-42 | the filtered rows are never more than the rows |
| TodosRoute.FilterCount | src/app/api/todos/route.ts:36-42 | each matching row occurs in the result as often as in the table, and each non-matching row not at all |
| TodosRoute.FilterMembers | src/app/api/todos/route.ts:36-42 | a row is in the result exactly when it is in the table and matches |
| TodosRoute.FilterAppend | src/app/api/todos/route.ts:36-42 | filtering two parts of a table and joining them equals filtering the whole table |
| TodosRoute.SkipTake | src/app/api/todos/route.ts:38-39 | `skip`/`take` selects the elements from `skip` on, at most `take` of them, empty past the end |
| TodosRoute.Offset | src/app/api/todos/route.ts:20 | the offset of a page is `(page - 1) * limit`, never negative for page and limit of at least 1 |
| TodosRoute.Ranked | src/app/api/todos/route.ts:36-42 | the ranked rows are a newest-first permutation of the rows the filter selects |
| TodosRoute.RankedMembers | src/app/api/todos/route.ts:23-40 | every ranked row is a row of the table that the filter accepts |
| TodosRoute.WindowOfRanked | src/app/api/todos/route.ts:36-41 | a window of newest-first rows is newest first and holds only rows it was cut from |
| TodosRoute.PageWindow | src/app/api/todos/route.ts:20-39 | page `page` of a newest-first sequence starts at `(page - 1) * limit`, holds at most `limit` items, is empty past the end, and stays newest first |
| TodosRoute.ListPage | src/app/api/todos/route.ts:35-50 | the page holds matching rows of the table, newest first, cut as the page window of the ranking (so starting at `(page - 1) * limit` and at most `limit` long); the total is the number of all matching rows; page and limit are echoed |
| TodosRoute.ListTodos | src/app/api/todos/route.ts:8-50 | no session gives 401 whatever the table holds; with a session, 200 and a page in which every todo is the caller's, contains the search text, and has the requested completion |
| TodosRoute.PagePastEndIsEmpty | src/app/api/todos/route.ts:36-43 | a page starting at or past the end of the matching rows is empty but still reports their number |
| TodosRoute.TotalIgnoresPaging | src/app/api/todos/route.ts:35-43 | the reported total depends on search and status only, not on page or limit |
| TodosRoute.OtherOwnersRowInvisible | src/app/api/todos/route.ts:23-43 | adding another user's row changes nothing in the caller's reply |
| TodosRoute.NewestRowRanksFirst | src/app/api/todos/route.ts:36-40 | a matching row newer than every other row comes first in the ranking |
| TodosRoute.NewestRowLeadsFirstPage | src/app/api/todos/route.ts:36-41 | a matching row newer than every other row is the first item of page 1 |
| TodosRoute.TodoTable.constructor | src/app/api/todos/route.ts:73-78 | the table starts empty, with the first autoincrement id 1 |
| TodosRoute.TodoTable.Post | src/app/api/todos/route.ts:58-80 | it keeps the table's invariant (ids and timestamps strictly increase along the table); no session gives 401 and missing or blank text gives 400, both leaving rows, id counter and clock unchanged; otherwise exactly one row is appended with the trimmed text, not completed, owned by the caller, newer than all others, and returned with 201 |
| TodoServiceModel.ApplyEdit | src/services/todoService.ts:68-71 | an update writes the text only if supplied and the completion only if supplied; owner and timestamp are kept |
| TodoServiceModel.EditedStore | src/services/todoService.ts:60-71 | an edit succeeds exactly for the owner of an existing document; it changes that document only, and keeps every key |
| TodoServiceModel.DeletedStore | src/services/todoService.ts:74-83 | a delete succeeds exactly for the owner of an existing document and removes that key only |
| TodoServiceModel.EditIdempotent | src/services/todoService.ts:68-71 | editing twice with the same fields gives the store editing once gave |
| TodoServiceModel.EmptyEditIsNoOp | src/services/todoService.ts:68-71 | an edit supplying no field leaves the store unchanged |
| TodoServiceModel.SecondDeleteFails | src/services/todoService.ts:74-83 | after a delete, deleting the same id fails for every user |
| TodoServiceModel.OwnedAfterDelete | src/services/todoService.ts:74-83 | deleting one of the caller's documents takes exactly that id out of the caller's set |
| TodoServiceModel.OwnedAfterOthersDelete | src/services/todoService.ts:74-83 | another user's delete leaves the caller's set unchanged |
| TodoServiceModel.OwnedAfterEdit | src/services/todoService.ts:60-71 | an edit changes no user's set of documents |
| TodoServiceModel.OwnedAfterAdd | src/services/todoService.ts:50-58 | a document added under an unused id joins its owner's set and leaves every other user's set unchanged |
| TodoServiceModel.Listing | src/services/todoService.ts:28-32 | the snapshot lists each selected document once, with its id |
| TodoServiceModel.SubscriptionQuery | src/services/todoService.ts:21-26 | the subscription shows exactly the caller's documents, each once, with their ids, newest first |
| TodoServiceModel.TodoService.constructor | src/services/todoService.ts:18-19 | the service starts over an empty collection |
| TodoServiceModel.TodoService.GetTodoById | src/services/todoService.ts:37-47 | the lookup finds something exactly when the document exists and is the caller's; then it is that document with its id |
| TodoServiceModel.TodoService.AddTodo | src/services/todoService.ts:50-58 | exactly one document is added, under an id not in use, with the text as given, not completed, owned by the caller and newer than every other; with no text nothing changes |
| TodoServiceModel.TodoService.EditTodo | src/services/todoService.ts:60-72 | a missing or foreign document fails with "Todo not found or unauthorized" and changes nothing; otherwise the store becomes the edited store |
| TodoServiceModel.TodoService.DeleteTodo | src/services/todoService.ts:74-83 | a missing or foreign document fails and changes nothing; otherwise exactly that document is removed |
| TodoServiceModel.OwnershipScenario | src/services/todoService.ts:37-83 | one user's new todo is hidden from another; its owner marks it completed with the text kept, deletes it, then cannot find it, and a second delete fails |
| TodoItemView.TodoItem.constructor | src/components/TodoItem.tsx:13-14 | a row starts out of editing mode with the todo's text in the edit box |
| TodoItemView.TodoItem.Type | src/components/TodoItem.tsx:33 | typing replaces the edit box's text |
| TodoItemView.TodoItem.HandleEdit | src/components/TodoItem.tsx:16-25 | outside editing mode it enters it and reports nothing; in editing mode it reports the untrimmed text and leaves, unless the text is blank, when it stays and reports nothing |
| TodoItemView.TodoItem.ClickToggle | src/components/TodoItem.tsx:50 | the toggle asks for this todo with the opposite completion |
| TodoItemView.TodoItem.ClickDelete | src/components/TodoItem.tsx:68-70 | a delete of this todo is reported exactly when the user confirms |
| TodoItemView.EnterSaveSession | src/components/TodoItem.tsx:16-35 | Edit, typing and Enter report exactly one edit of non-blank text and end at rest; blank text reports nothing and stays in editing mode |
| TodoItemView.MouseSaveSession | src/components/TodoItem.tsx:16-65 | Edit, typing and a click on Save: the blur reports the non-blank text once, the click reports nothing, and the row ends in editing mode |
| TodoListView.CeilDiv | src/components/TodoList.tsx:103 | `ceil(n / d)` is the least count of `d`-sized pages that holds `n` items |
| TodoListView.TotalPages | src/components/TodoList.tsx:103 | the page count is at least 1, is 1 with no reply or no items, and otherwise satisfies `(pages - 1) * limit < total <= pages * limit` |
| TodoListView.PageOf | src/components/TodoList.tsx:53 | an absent or empty page value reads as page 1 |
| TodoListView.NumberToString | src/components/TodoList.tsx:183 | the text a page number becomes in the URL: "NaN" exactly for NaN, with a minus sign exactly for a negative page |
| TodoListView.PageQuery | src/components/TodoList.tsx:183 | ``router.push(`?page=${n}`)`` installs a query string whose only pair is `page` with the page's text (also src/components/TodoList.tsx:67, 144, 176, 193) |
| TodoListView.PushedPageIsRead | src/components/TodoList.tsx:176-193 | after the buttons push a page into the URL the list reads that page back, NaN included |
| TodoListView.GetTodosParams | src/components/TodoList.tsx:9-15 | the request always carries page and limit, and carries search and status exactly when they are non-empty |
| TodoListView.ListQueryReadByRoute | src/components/TodoList.tsx:9-16 | the route reads back the page, a limit of 5, the search and the status the list sent, and accepts any page from 1 up |
| TodoListView.BackDisabled | src/components/TodoList.tsx:175-182 | the first-page and Prev buttons are disabled exactly where Prev would lead to page 0 |
| TodoListView.NextDisabled | src/components/TodoList.tsx:192 | Next is disabled only on the page equal to the page count, and while the bar is shown never together with Prev |
| TodoListView.NavShown | src/components/TodoList.tsx:172 | the bar is shown only with more than one page, so page 1 can always go forward and the last page back |
| TodoListView.NavigationStaysInRange | src/components/TodoList.tsx:174-193 | from a page within range, an enabled Prev or Next leads to a page within range |
| TodoListView.NextEnabledPastLastPage | src/components/TodoList.tsx:191-193 | on a page past the last, Next is enabled and leads further out |
| TodoListView.MutationFor | src/components/TodoList.tsx:91-101 | every request keeps the row's id, and a delete request is exactly a `deleteTodo` |
| TodoListView.ToggleWritesOnlyCompleted | src/components/TodoList.tsx:91-93 | under the partial-update rule, a toggle request changes the completion and nothing else |
| TodoListView.EditWritesOnlyText | src/components/TodoList.tsx:95-97 | under the partial-update rule, an edit request changes the text and nothing else |
| TodoListView.SentTextStoredAsIs | src/components/TodoList.tsx:85-89 | the text the list sends passes the create route's check and is stored as sent |
| TodoListView.TodoList.constructor | src/components/TodoList.tsx:49-51 | the inputs start empty |
| TodoListView.TodoList.Page | src/components/TodoList.tsx:53 | the current page is 1 when the URL has no page value or an empty one |
| TodoListView.TodoList.Request | src/components/TodoList.tsx:56-58 | the list always asks for 5 items |
| TodoListView.TodoList.SetNewTodo | src/components/TodoList.tsx:118 | typing replaces the new-todo input |
| TodoListView.TodoList.SetSearchText | src/components/TodoList.tsx:137 | typing a search replaces it and keeps the page |
| TodoListView.TodoList.AddDisabled | src/components/TodoList.tsx:124 | when the add button is enabled, the trimmed input is not blank and trimming it again changes nothing |
| TodoListView.TodoList.HandleAddTodo | src/components/TodoList.tsx:85-89 | a blank input sends nothing, exactly when the button would be disabled; otherwise the trimmed input, which is not blank, is sent |
| TodoListView.TodoList.AddSucceeded | src/components/TodoList.tsx:64-68 | a successful add clears the input and shows page 1 |
| TodoListView.TodoList.ChangeFilter | src/components/TodoList.tsx:140-145 | choosing a filter sets it and shows page 1 |
| TodoListView.TodoList.ClickFirst | src/components/TodoList.tsx:174-177 | on the shown bar, "Back to page 1" does nothing on page 1 and otherwise shows page 1 |
| TodoListView.TodoList.ClickPrev | src/components/TodoList.tsx:181-184 | on the shown bar, Prev does nothing on page 1 and otherwise shows the page before |
| TodoListView.TodoList.ClickNext | src/components/TodoList.tsx:191-194 | on the shown bar, Next does nothing on the last page and otherwise shows the page after |
| TodoFormView.TodoForm.constructor | src/components/TodoForm.tsx:18-20 | a form starts with empty text, not saving, and loading exactly in edit mode |
| TodoFormView.TodoForm.ShouldFetch | src/components/TodoForm.tsx:23 | the fetch runs only for a signed-in form that will submit along the edit path |
| TodoFormView.TodoForm.EditPath | src/components/TodoForm.tsx:49 | the edit path is taken only in edit mode, and then there is a non-empty id to edit |
| TodoFormView.TodoForm.SubmitDisabled | src/components/TodoForm.tsx:95 | the submit button is disabled while saving or on blank text, so an enabled one means the form is not saving and the text has a non-whitespace character |
| TodoFormView.TodoForm.FetchForEdit | src/components/TodoForm.tsx:22-41 | with edit mode, an id and a user: a found todo fills in its text, a missing one or a failed lookup leads to /404, and loading ends; otherwise nothing happens |
| TodoFormView.TodoForm.SetText | src/components/TodoForm.tsx:85 | typing replaces the text and keeps the other fields |
| TodoFormView.TodoForm.HandleSubmit | src/components/TodoForm.tsx:43-61 | it runs only when not saving, as the disabled controls ensure; a disabled button (blank text) or no user does nothing; otherwise the untrimmed data goes to `editTodo` when editing with an id and to `addTodo` otherwise, success navigates home, and saving ends |
| RegisterPage.PasswordError | src/app/register/page.tsx:24-32 | a pair is accepted exactly when both fields agree and are at least 6 long; a mismatch is reported before a short password |
| RegisterPage.Register.constructor | src/app/register/page.tsx:11-17 | the page starts with empty fields, no error and not loading |
| RegisterPage.Register.Fill | src/app/register/page.tsx:11-13 | filling in the fields sets email, password and confirmation |
| RegisterPage.Register.HandleSubmit | src/app/register/page.tsx:20-44 | the old error is cleared; a rejected pair shows its message and asks for no account; an accepted pair asks for one with the form's email and password, goes home on success, shows the provider's message or the fallback on failure, and ends not loading |
| RegisterPage.FailureMessageNeverEmpty | src/app/register/page.tsx:40 | a failed sign-up always shows a non-empty message |

## Left out

- Database, document-store and identity-provider internals are not modelled. The table is a sequence, the collection a map and a session an optional user id. The ORM calls, `addDoc`, `updateDoc`, `getDoc`, `deleteDoc`, `onSnapshot` and `createUserWithEmailAndPassword` appear only as their effect on that state or as a parameter.
- The 500 replies of the list route are not modelled: store and transport failures are outside the model.
- TodosRoute.ListTodos: requires that page and limit parse to numbers of at least 1. The route hands NaN, zero or negative values to the ORM, whose reaction lies outside the model.
- TodosRoute.TodoTable.Post: the text is an optional string. A non-string body value, on which `trim` throws and the route answers 500, is not modelled.
- The session's user id is taken as an integer. `parseInt(session.user.id)` on a non-numeric id is not modelled.
- `parseInt` and `toString` work on unbounded integers. JavaScript's floating-point rounding of very large numbers is not modelled.
- Search is a plain, case-sensitive substring test. Collation rules of a particular database are not modelled.
- TodoServiceModel.SubscriptionQuery: only the query and its order are modelled. Real-time delivery, the callback and `Unsubscribe` belong to the store's client library.
- ListPage and Ranked: for arbitrary rows, rows with equal `createdAt` are ranked in table order. The database leaves the order of such ties unspecified, and that order may differ between pages. Tables built by `TodoTable.Post` have no ties, because `TodoTable.Valid` keeps timestamps strictly increasing.
- Timestamps are a clock: `serverTimestamp` is an increasing number assigned at insert, not a wall-clock time.
- react-query caching and invalidation, the in-flight states the list's mutations report, `fetch` and HTTP transport are not modelled. The list's error and loading screens are not modelled either.
- The add button's in-flight flag is a parameter of `AddDisabled`.
- Router navigation is a returned path or a new query string. The `confirm` and `alert` dialogs are inputs or are not modelled.
- The network errors of `editTodo` and `addTodo` inside the form are not modelled. Only the service's own refusal is.
- JSX markup and styling are not modelled.
- TodoListView.TodoList.ClickFirst, ClickPrev and ClickNext: require `NavShown(totalPages)`, because the pagination bar is rendered only with more than one page (src/components/TodoList.tsx:172).
- TodoFormView.TodoForm.HandleSubmit: requires that the form is not saving, because the text input and the submit button are disabled while it saves (src/components/TodoForm.tsx:87, 95).
- Each operation is one atomic step. The route's `findMany` and `count` read one snapshot of the table, and the service's `getDoc` followed by `updateDoc` or `deleteDoc` cannot interleave with another request.
- Whether removing the focused edit input after Enter fires its `onBlur` again is browser-dependent and not modelled; `TodoItemView.EnterSaveSession` runs `handleEdit` once for Enter.
- The pages with no logic of their own are not modelled: login, home, add and todos, not-found, error, layout and the navigation bar.
- The `PUT`/`DELETE /api/todos/{id}` route is not part of this model. The list's update and delete requests end at `MutationFor`.
- Password length counts characters, not UTF-16 code units.
- URL percent-encoding of query values is not modelled. A parameter value is the string itself.
