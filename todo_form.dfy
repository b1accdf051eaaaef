/**
 * The create/edit form: in edit mode it first loads the todo being
 * edited, and on submit it either edits that todo or adds a new one
 * through the document service.
 */
module TodoFormView {
  import opened Wrappers
  import opened Text
  import opened TodoTypes
  import opened TodoServiceModel

  const NotFoundPath := "/404"

  /** JavaScript truthiness of a string that may be absent: present and non-empty. */
  predicate Present(s: Option<string>) {
    s.Some? && s.value != ""
  }

  /** `!formData.todo?.trim()`: the text is absent or blank. */
  predicate BlankText(f: TodoFormData) {
    f.todo.None? || IsBlank(f.todo.value)
  }

  /** What a submit did: nothing, an add under a new id, an edit, or a save the service refused. */
  datatype SubmitOutcome = Skipped | Added(id: string) | Edited | Failed(message: string)

  class TodoForm {
    const todoId: Option<string>
    const isEdit: bool
    /** The signed-in user's uid, if any. */
    const user: Option<string>
    var formData: TodoFormData
    var loading: bool
    var fetchLoading: bool

    /** The form starts with empty text, not saving, and loading exactly when it edits. */
    constructor (todoId: Option<string>, isEdit: bool, user: Option<string>)
      ensures this.todoId == todoId && this.isEdit == isEdit && this.user == user
      ensures formData == TodoFormData(Some(""), None) && !loading && fetchLoading == isEdit
    {
      this.todoId := todoId;
      this.isEdit := isEdit;
      this.user := user;
      formData := TodoFormData(Some(""), None);
      loading := false;
      fetchLoading := isEdit;
    }

    /** The fetch effect runs only in edit mode with an id and a signed-in user, so only on the edit path. */
    predicate ShouldFetch()
      reads this
      ensures ShouldFetch() ==> EditPath() && user.Some?
    {
      isEdit && Present(todoId) && user.Some?
    }

    /** The path `handleSubmit` takes: edit when editing with an id, which it then always has; add otherwise. */
    predicate EditPath()
      reads this
      ensures EditPath() ==> isEdit && todoId.Some? && todoId.value != ""
    {
      isEdit && Present(todoId)
    }

    /**
     * The edit-mode fetch (`readFails`: the lookup threw). A found todo
     * replaces the form's data with its text; a missing or foreign todo,
     * or a failed lookup, leads to the not-found page. Either way the
     * form stops loading. Without the effect's preconditions nothing
     * happens, so an edit form without an id or a user keeps loading.
     */
    method FetchForEdit(svc: TodoService, readFails: bool) returns (nav: Option<string>)
      modifies this`formData, this`fetchLoading
      ensures !ShouldFetch() ==> nav.None? && formData == old(formData) && fetchLoading == old(fetchLoading)
      ensures ShouldFetch() ==> !fetchLoading
      ensures ShouldFetch() && !readFails && svc.GetTodoById(todoId.value, user.value).Some? ==>
        && nav.None?
        && formData == TodoFormData(Some(svc.GetTodoById(todoId.value, user.value).value.todo), None)
      ensures ShouldFetch() && (readFails || svc.GetTodoById(todoId.value, user.value).None?) ==>
        nav == Some(NotFoundPath) && formData == old(formData)
    {
      nav := None;
      if ShouldFetch() {
        var found := if readFails then None else svc.GetTodoById(todoId.value, user.value);
        if found.Some? {
          formData := TodoFormData(Some(found.value.todo), None);
        } else {
          nav := Some(NotFoundPath);
        }
        fetchLoading := false;
      }
    }

    /** The save button is disabled while saving or while the text is blank. */
    predicate SubmitDisabled()
      reads this
      ensures !SubmitDisabled() ==> !loading && formData.todo.Some? && !AllWhitespace(formData.todo.value)
    {
      loading || BlankText(formData)
    }

    /** Typing in the text field. */
    method SetText(text: string)
      modifies this`formData
      ensures formData == old(formData).(todo := Some(text))
    {
      formData := formData.(todo := Some(text));
    }

    /**
     * `handleSubmit`, which cannot be triggered while saving (the input
     * and the button are disabled then): with blank text, which also
     * disables the button, or with no user it does nothing. Otherwise
     * it hands the form's data, untrimmed, to `editTodo` on the edit path
     * or to `addTodo` on the add path, goes home when the service accepts
     * it, and in every case ends not saving.
     */
    method HandleSubmit(svc: TodoService) returns (outcome: SubmitOutcome, nav: Option<string>)
      requires svc.Valid() && !loading
      modifies this`loading, svc
      ensures svc.Valid()
      ensures old(SubmitDisabled()) ==> outcome == Skipped
      ensures BlankText(formData) || user.None? ==>
        outcome == Skipped && nav.None? && loading == old(loading) && svc.docs == old(svc.docs)
      ensures !BlankText(formData) && user.Some? ==> !loading
      ensures !BlankText(formData) && user.Some? && EditPath() ==>
        && outcome == (if Owns(old(svc.docs), todoId.value, user.value) then Edited else Failed(NotFoundError))
        && svc.docs == (if outcome.Edited? then EditedStore(old(svc.docs), todoId.value, user.value, formData).value else old(svc.docs))
      ensures !BlankText(formData) && user.Some? && !EditPath() ==>
        && outcome.Added? && outcome.id !in old(svc.docs)
        && svc.docs == old(svc.docs)[outcome.id := TodoDoc(formData.todo.value, false, user.value, old(svc.clock))]
      ensures nav == (if outcome.Added? || outcome.Edited? then Some(HomePath) else None)
    {
      if BlankText(formData) || user.None? {
        return Skipped, None;
      }
      loading := true;
      if EditPath() {
        var r := svc.EditTodo(todoId.value, user.value, formData);
        outcome := if r.Pass? then Edited else Failed(r.message);
      } else {
        var r := svc.AddTodo(user.value, formData);
        outcome := if r.Some? then Added(r.value) else Failed("");
      }
      nav := if outcome.Added? || outcome.Edited? then Some(HomePath) else None;
      loading := false;
    }
  }
}
