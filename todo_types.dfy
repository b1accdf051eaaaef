/**
 * The record shapes shared by the API and the UI. Timestamps are an
 * abstract, totally ordered key (a natural number); a larger key is later.
 */
module TodoTypes {
  import opened Wrappers

  /** The home route that a successful save or registration navigates to. */
  const HomePath := "/"

  /** A row of the relational todo table. */
  datatype Todo = Todo(id: int, todo: string, completed: bool, userId: int, createdAt: nat, updatedAt: nat)

  /** The fields a create or edit form supplies; an absent field is `None`. */
  datatype TodoFormData = TodoFormData(todo: Option<string>, completed: Option<bool>)

  /** The body of a list reply: one page of items, the size of the whole filtered set, and the paging used. */
  datatype ApiResponse<T> = ApiResponse(data: seq<T>, total: nat, page: int, limit: int)
}
