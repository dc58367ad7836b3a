/** The main screen as the program runs it: three pieces of state that the
    event handlers reassign, and the three list helpers they call. Each
    handler is proved to make the transition that `MainScreen.Step` describes. */
module TodoStore {
  import opened Todos
  import opened TodoItem
  import opened MainScreen

  class Store {
    var list: seq<Todo>
    var showDialog: bool
    var deleteItem: int

    /** The state as a value. */
    function Current(): Screen
      reads this
    {
      Screen(list, showDialog, deleteItem)
    }

    predicate Valid()
      reads this
    {
      MainScreen.Valid(Current())
    }

    /** Empty list, dialog closed, index 0. */
    constructor ()
      ensures Current() == Initial() && Valid()
    {
      list := [];
      showDialog := false;
      deleteItem := 0;
    }

    /** The add helper: the new list is the old one followed by `todo`. */
    method AddTodo(todo: Todo)
      modifies this`list
      ensures list == Appended(old(list), todo)
    {
      list := list + [todo];
    }

    /** The edit helper: a copy of the list with position i overwritten. */
    method EditTodo(i: int, todo: Todo)
      requires 0 <= i < |list|
      modifies this`list
      ensures list == Replaced(old(list), i, todo)
    {
      list := list[i := todo];
    }

    /** The delete helper: a copy of the list without position i. */
    method DeleteTodo(i: int)
      requires 0 <= i < |list|
      modifies this`list
      ensures list == Removed(old(list), i)
    {
      list := list[..i] + list[i + 1..];
    }

    /** The top bar's add action appends a default record. */
    method OnAddClicked()
      requires Valid()
      modifies this`list
      ensures Valid()
      ensures Step(old(Current()), AddClicked) == Ok(Current())
    {
      AddTodo(Default());
    }

    /** The change callback of row i: the row's copy replaces entry i. */
    method OnRowInput(i: int, e: RowEvent)
      requires Valid() && 0 <= i < |list| && Offers(list[i], e)
      modifies this`list
      ensures Valid()
      ensures Step(old(Current()), RowInput(i, e)) == Ok(Current())
    {
      StepPreservesValid(Current(), RowInput(i, e));
      EditTodo(i, Apply(list[i], e));
    }

    /** A long press on row i records i and shows the dialog. */
    method OnLongPress(i: int)
      requires Valid() && 0 <= i < |list|
      modifies this`deleteItem, this`showDialog
      ensures Valid()
      ensures Step(old(Current()), LongPressed(i)) == Ok(Current())
    {
      deleteItem := i;
      showDialog := true;
    }

    /** The dialog's confirm button deletes the recorded row, then hides the
        dialog. */
    method OnConfirm()
      requires Valid() && showDialog
      modifies this`list, this`showDialog
      ensures Valid()
      ensures Step(old(Current()), ConfirmClicked) == Ok(Current())
    {
      StepPreservesValid(Current(), ConfirmClicked);
      DeleteTodo(deleteItem);
      showDialog := false;
    }

    /** The dialog's cancel button and its dismiss request only hide it. */
    method OnDismiss(ev: Event)
      requires Valid() && showDialog
      requires ev == CancelClicked || ev == DialogDismissed
      modifies this`showDialog
      ensures Valid()
      ensures Step(old(Current()), ev) == Ok(Current())
    {
      showDialog := false;
    }
  }
}
