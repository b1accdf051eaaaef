/**
 * One row of the todo list: shows a todo, toggles it, edits its text in
 * place and deletes it after confirmation. The row does not change the
 * todo itself; it reports what the user asked for to the list.
 */
module TodoItemView {
  import opened Text
  import opened Wrappers
  import opened TodoTypes

  /** A request the row hands to the list: `onToggle`, `onEdit` or `onDelete`. */
  datatype ItemCall =
    | Toggle(id: int, completed: bool)
    | Edit(id: int, text: string)
    | Delete(id: int)

  class TodoItem {
    const todo: Todo
    var isEditing: bool
    var editText: string

    /** A fresh row shows the text and is not editing; the edit box starts with the todo's text. */
    constructor (todo: Todo)
      ensures this.todo == todo && !isEditing && editText == todo.todo
    {
      this.todo := todo;
      isEditing := false;
      editText := todo.todo;
    }

    /** Typing in the edit box. */
    method Type(text: string)
      modifies this`editText
      ensures editText == text
    {
      editText := text;
    }

    /**
     * `handleEdit` (Edit/Save button, blur, Enter): outside editing mode it
     * enters it and reports nothing; in editing mode it reports the edit
     * box's text, untrimmed, and leaves editing mode, unless that text is
     * blank, in which case it stays in editing mode and reports nothing.
     */
    method HandleEdit() returns (call: Option<ItemCall>)
      modifies this`isEditing
      ensures !old(isEditing) ==> isEditing && call.None?
      ensures old(isEditing) && IsBlank(editText) ==> isEditing && call.None?
      ensures old(isEditing) && !IsBlank(editText) ==> !isEditing && call == Some(Edit(todo.id, editText))
    {
      call := None;
      if isEditing {
        if !IsBlank(editText) {
          call := Some(Edit(todo.id, editText));
          isEditing := false;
        }
      } else {
        isEditing := true;
      }
    }

    /** The completion button asks for the opposite of the todo's current state. */
    method ClickToggle() returns (call: ItemCall)
      ensures call.Toggle? && call.id == todo.id
      ensures call.completed != todo.completed
    {
      call := Toggle(todo.id, !todo.completed);
    }

    /** The delete button reports a delete only when the user confirms it. */
    method ClickDelete(confirmed: bool) returns (call: Option<ItemCall>)
      ensures call.Some? <==> confirmed
      ensures call.Some? ==> call.value == Delete(todo.id)
    {
      if confirmed {
        call := Some(Delete(todo.id));
      } else {
        call := None;
      }
    }
  }

  /**
   * Saving with the Enter key, from a row at rest: pressing Edit, typing
   * `text` and pressing Enter runs `handleEdit` twice. A non-blank `text`
   * is reported once and the row ends at rest; a blank one reports
   * nothing and the row stays in editing mode.
   */
  method EnterSaveSession(item: TodoItem, text: string) returns (first: Option<ItemCall>, second: Option<ItemCall>)
    requires !item.isEditing
    modifies item
    ensures first.None?
    ensures !IsBlank(text) ==> second == Some(Edit(item.todo.id, text)) && !item.isEditing
    ensures IsBlank(text) ==> second.None? && item.isEditing
  {
    first := item.HandleEdit();
    item.Type(text);
    second := item.HandleEdit();
  }

  /**
   * Saving with the mouse, from a row at rest: pressing Edit, typing
   * `text` and clicking Save. The click first takes the focus off the
   * input, whose `onBlur` runs `handleEdit`; the button's `onClick` then
   * runs `handleEdit` again on the state the blur left. A non-blank `text`
   * is reported once, by the blur, and the click puts the row straight
   * back into editing mode; a blank one reports nothing. Either way the
   * row ends in editing mode.
   */
  method MouseSaveSession(item: TodoItem, text: string)
    returns (first: Option<ItemCall>, onBlur: Option<ItemCall>, onClick: Option<ItemCall>)
    requires !item.isEditing
    modifies item
    ensures first.None? && onClick.None?
    ensures onBlur == if IsBlank(text) then None else Some(Edit(item.todo.id, text))
    ensures item.isEditing
  {
    first := item.HandleEdit();
    item.Type(text);
    onBlur := item.HandleEdit();
    onClick := item.HandleEdit();
  }
}
