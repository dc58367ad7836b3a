/** The event handlers of one row of the list. A row in edit view offers a
    text input and a "done" button; a row in read view offers a checkbox.
    Every handler hands back a copy of the row's record with one field set. */
module TodoItem {
  import opened Todos

  /** What the controls of a row can report. */
  datatype RowEvent =
    | TextChanged(text: string)      // the text input reports its new content
    | DoneClicked                     // the "done" button of the edit view
    | CheckedChanged(checked: bool)   // the checkbox of the read view

  /** Whether the row rendered for `item` shows the control that raises `e`. */
  predicate Offers(item: Todo, e: RowEvent)
  {
    match e
    case TextChanged(_) => item.onEdit
    case DoneClicked => item.onEdit
    case CheckedChanged(_) => !item.onEdit
  }

  /** The copy made when the user types: only the text changes. */
  function WithText(item: Todo, s: string): (r: Todo)
    ensures r.text == s && r.done == item.done && r.onEdit == item.onEdit
    ensures r == item <==> item.text == s
  {
    item.(text := s)
  }

  /** The copy made when the user finishes editing: the row leaves edit mode. */
  function FinishEdit(item: Todo): (r: Todo)
    ensures !r.onEdit && r.text == item.text && r.done == item.done
    ensures r == item <==> !item.onEdit
  {
    item.(onEdit := false)
  }

  /** The copy made when the checkbox changes: `done` takes the new value. */
  function WithDone(item: Todo, checked: bool): (r: Todo)
    ensures r.done == checked && r.text == item.text && r.onEdit == item.onEdit
    ensures r == item <==> item.done == checked
  {
    item.(done := checked)
  }

  /** The record the row hands to its change callback for event `e`. */
  function Apply(item: Todo, e: RowEvent): (r: Todo)
    // no event puts a row back into edit mode
    ensures r.onEdit ==> item.onEdit
    // while the row is in edit view its done flag stays as it was
    ensures Offers(item, e) && item.onEdit ==> r.done == item.done
    // while the row is in read view its text stays as it was and it stays there
    ensures Offers(item, e) && !item.onEdit ==> r.text == item.text && !r.onEdit
  {
    match e
    case TextChanged(s) => WithText(item, s)
    case DoneClicked => FinishEdit(item)
    case CheckedChanged(b) => WithDone(item, b)
  }

  /** Typing back the old text undoes typing. */
  lemma WithTextUndo(item: Todo, s: string)
    ensures WithText(WithText(item, s), item.text) == item
  {
  }

  /** Setting the checkbox back to its old value undoes a toggle. */
  lemma WithDoneUndo(item: Todo, checked: bool)
    ensures WithDone(WithDone(item, checked), item.done) == item
  {
  }

  /** Finishing an edit twice is the same as finishing it once. */
  lemma FinishEditIdempotent(item: Todo)
    ensures FinishEdit(FinishEdit(item)) == FinishEdit(item)
  {
  }

  /** Every event a row offers keeps "in edit mode implies not done". */
  lemma ApplyKeepsConsistent(item: Todo, e: RowEvent)
    requires Consistent(item) && Offers(item, e)
    ensures Consistent(Apply(item, e))
  {
  }
}
