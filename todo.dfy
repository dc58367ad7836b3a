/** The to-do record: a value with three fields, each with a default. */
module Todos {

  /** One entry of the list: its text, whether it is complete, and whether
      its row shows the text input (edit view) instead of the checkbox. */
  datatype Todo = Todo(text: string, done: bool, onEdit: bool)

  /** The record built with every default argument, which is what the add
      action appends: empty text, not done, and in edit mode. Because equality
      of records is structural over exactly the three fields, it is the only
      record with those field values. */
  function Default(): (t: Todo)
    ensures t.text == "" && !t.done && t.onEdit
    ensures forall u: Todo :: u.text == "" && !u.done && u.onEdit ==> u == t
  {
    Todo("", false, true)
  }

  /** An entry that is still being edited has never been marked done. */
  predicate Consistent(t: Todo)
  {
    t.onEdit ==> !t.done
  }
}
