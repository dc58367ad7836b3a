# SimpleTODO: the to-do store and delete dialog, in Dafny

SimpleTODO is a single-screen Android to-do list. Its behaviour lives in
`Main()`. `Main()` keeps three pieces of state:

- `list`: the ordered to-do records.
- `showDialog`: whether the delete confirmation dialog is shown.
- `deleteItem`: the row index waiting for that confirmation.

The event handlers reassign this state through three local helpers (add,
edit, delete). Each row of the list hands its change callback a copy of its
`Todo` record with one field set.

This project models that logic in four modules:

- `Todos` (`todo.dfy`): the `Todo` record and its default value.
- `TodoItem` (`todo_item.dfy`): the events a row can raise, which view
  offers which control, and the copy each event produces.
- `MainScreen` (`main_screen.dfy`): the screen state as a value, the three
  list helpers as functions, `Step` (the effect of one user event, including
  the index exception that the list helpers can raise) and `Run` (a sequence
  of events). It also holds the lemmas about them. Among those lemmas are the
  invariant of reachable states and the end-to-end add/type/finish/tick/delete
  scenario.
- `TodoStore` (`todo_store.dfy`): the imperative form. The class `Store` has
  the three state variables as fields. Its methods are the helpers and the
  handlers. Each handler is proved to make exactly the transition `Step`
  describes and to keep the invariant.

The invariant `MainScreen.Valid` holds in every reachable state. It has two
parts:

- A shown dialog names an existing row.
- A row that is still in edit mode is not marked done.

Because of it, no event raised by a control on screen can hit an
out-of-range index.

## Model

| member | source | states |
|---|---|---|
| Todos.Default | app/src/main/java/com/david0926/simpletodo/Todo.kt:5-9 | the default record has empty text, is not done and is in edit mode, and it is the only record with those three field values |
| TodoItem.WithText | app/src/main/java/com/david0926/simpletodo/MainActivity.kt:139 | typing sets `text` and keeps `done` and `onEdit`; the copy equals the original exactly when the text is unchanged |
| TodoItem.FinishEdit | app/src/main/java/com/david0926/simpletodo/MainActivity.kt:146 | finishing an edit clears `onEdit` and keeps `text` and `done`; it is a no-op exactly when the row was already out of edit mode |
| TodoItem.WithDone | app/src/main/java/com/david0926/simpletodo/MainActivity.kt:165 | the checkbox sets `done` to the reported value and keeps `text` and `onEdit`; a no-op exactly when the value is unchanged |
| TodoItem.Apply | app/src/main/java/com/david0926/simpletodo/MainActivity.kt:136-166 | (`Offers` gives the controls each view shows: text input and done button in edit view, checkbox in read view) no row event puts a row back into edit mode; in edit view `done` is kept; in read view `text` is kept and the row stays in read view |
| TodoItem.WithTextUndo | app/src/main/java/com/david0926/simpletodo/MainActivity.kt:139 | typing back the previous text restores the record |
| TodoItem.WithDoneUndo | app/src/main/java/com/david0926/simpletodo/MainActivity.kt:165 | setting the checkbox back to its previous value restores the record |
| TodoItem.FinishEditIdempotent | app/src/main/java/com/david0926/simpletodo/MainActivity.kt:146 | finishing an edit twice equals finishing it once |
| TodoItem.ApplyKeepsConsistent | app/src/main/java/com/david0926/simpletodo/MainActivity.kt:136-166 | every event a row offers keeps "in edit mode implies not done" |
| MainScreen.Appended | app/src/main/java/com/david0926/simpletodo/MainActivity.kt:55-57 | adding grows the list by one, keeps the earlier entries as they were and puts the new record last |
| MainScreen.Replaced | app/src/main/java/com/david0926/simpletodo/MainActivity.kt:59-61 | editing position i puts the record at i and keeps the length and every other position |
| MainScreen.Removed | app/src/main/java/com/david0926/simpletodo/MainActivity.kt:63-65 | deleting position i shortens the list by one; earlier entries keep their positions, later ones move down by one |
| MainScreen.RemovedUndoesAppended | app/src/main/java/com/david0926/simpletodo/MainActivity.kt:55-65 | deleting the entry just added gives back the previous list |
| MainScreen.ReplacedSameIsIdentity | app/src/main/java/com/david0926/simpletodo/MainActivity.kt:59-61 | writing back the record already at i leaves the list unchanged |
| MainScreen.ReplacedTwice | app/src/main/java/com/david0926/simpletodo/MainActivity.kt:59-61 | two edits of one position: the second wins |
| MainScreen.Step | app/src/main/java/com/david0926/simpletodo/MainActivity.kt:71-200 | an event raises the index exception exactly when a row edit or the confirm names a position outside the list; only a long press changes the recorded index or opens the dialog; confirm, cancel and dismiss close it |
| MainScreen.Enabled | app/src/main/java/com/david0926/simpletodo/MainActivity.kt:115-177 | what is on screen: a row control or long press always names a row of the current list (`itemsIndexed`, with the controls of the row's view per `Offers`), and the dialog's buttons exist only while `showDialog` holds (`if (!showDialog) return`) |
| MainScreen.InitialValid | app/src/main/java/com/david0926/simpletodo/MainActivity.kt:53-69 | the initial state `Initial` (empty list, dialog closed, index 0) satisfies the invariant |
| MainScreen.StepPreservesValid | app/src/main/java/com/david0926/simpletodo/MainActivity.kt:71-200 | an event raised by a control on screen (per `Enabled`) never raises the index exception and keeps the invariant |
| MainScreen.RunPreservesValid | app/src/main/java/com/david0926/simpletodo/MainActivity.kt:71-200 | any sequence of on-screen events (each `Enabled` in the state it meets) from a valid state runs without exception and ends in a valid state |
| MainScreen.RunLength | app/src/main/java/com/david0926/simpletodo/MainActivity.kt:71-88 | along such a sequence the list length changes by the number of add clicks minus the number of confirms |
| MainScreen.RequestThenCancel | app/src/main/java/com/david0926/simpletodo/MainActivity.kt:79-82 | a long press followed by cancel or dismiss leaves the list as it was and the dialog closed |
| MainScreen.RequestThenConfirm | app/src/main/java/com/david0926/simpletodo/MainActivity.kt:79-86 | a long press on row i followed by confirm removes exactly row i and closes the dialog |
| MainScreen.AddClicks | app/src/main/java/com/david0926/simpletodo/MainActivity.kt:73 | n add clicks append n default records (each not done and in edit mode) and change nothing else |
| MainScreen.Scenario | app/src/main/java/com/david0926/simpletodo/MainActivity.kt:71-188 | add, type "Buy milk", finish, tick, long-press and confirm: each intermediate list is as expected, every event uses a control on screen, and the list ends empty |
| TodoStore.Store.constructor | app/src/main/java/com/david0926/simpletodo/MainActivity.kt:53-69 | the store starts with an empty list, the dialog hidden and index 0, which is valid |
| TodoStore.Store.AddTodo | app/src/main/java/com/david0926/simpletodo/MainActivity.kt:55-57 | the new list is the old one followed by the record; the dialog state is untouched |
| TodoStore.Store.EditTodo | app/src/main/java/com/david0926/simpletodo/MainActivity.kt:59-61 | the new list is the old one with position i replaced; the dialog state is untouched |
| TodoStore.Store.DeleteTodo | app/src/main/java/com/david0926/simpletodo/MainActivity.kt:63-65 | the new list is the old one without position i; the dialog state is untouched |
| TodoStore.Store.OnAddClicked | app/src/main/java/com/david0926/simpletodo/MainActivity.kt:73 | the add action makes the add transition and keeps the invariant |
| TodoStore.Store.OnRowInput | app/src/main/java/com/david0926/simpletodo/MainActivity.kt:78 | a row's change callback makes the row-edit transition and keeps the invariant |
| TodoStore.Store.OnLongPress | app/src/main/java/com/david0926/simpletodo/MainActivity.kt:79-82 | a long press records the row and shows the dialog, leaving the list alone |
| TodoStore.Store.OnConfirm | app/src/main/java/com/david0926/simpletodo/MainActivity.kt:184-188 | confirm deletes the recorded row, then hides the dialog, and keeps the invariant |
| TodoStore.Store.OnDismiss | app/src/main/java/com/david0926/simpletodo/MainActivity.kt:179-200 | cancel or dismiss only hides the dialog; the list and the recorded index stay |

Two facts about the code that the model keeps:

- The checkbox sets `done` to the value it reports
  (`onCheckedChange = { onChange(item.copy(done = it)) }`). It does not flip
  it (`WithDone`).
- `editTodo` and `deleteTodo` throw `IndexOutOfBoundsException` on an
  out-of-range index. `Step` models that as `IndexOutOfBounds`, and
  `RunPreservesValid` proves that events from on-screen controls never raise
  it.

The model assumes that the screen is redrawn after every handler, before the
next event arrives. Events are read against the current state: `Enabled`
decides which controls exist, and a row's callbacks see the record at that
row's current index. Compose does not guarantee this. "## Left out" names the
results that depend on it.

## Left out

- Compose rendering and layout (scaffold, top bar, lazy column, cards, text
  fields, checkbox and dialog visuals) are UI. Only which control a row or the
  dialog shows is modelled (`Offers`, `Enabled`).
- Long-press gesture detection is framework input handling. A long press is
  the event `LongPressed(i)`.
- The theme and the primary and secondary colours are palette selection with
  no behaviour.
- Saving state across configuration changes (`rememberSaveable`,
  `Serializable`) is framework persistence.
- String resource lookup is an external collaborator.
- The activity's `onCreate` and the preview are lifecycle and tooling glue.
- Recomposition is not modelled. Row callbacks use the `item` captured at
  the last composition, and the dialog's buttons exist until the next one. So
  two things can happen in the program before a redraw that the model does
  not capture:
  - A late text change after the done click copies the stale record, which is
    still in edit mode, and reopens the row.
  - A second confirm click deletes again, or throws.
- TodoItem.Apply: "no event reopens edit mode" holds only under the
  redraw-before-next-event assumption, because a stale row callback can
  reopen the row.
- MainScreen.StepPreservesValid: "an on-screen event never raises" holds
  only under that assumption, because `Enabled` is read on the current state.
- MainScreen.RunPreservesValid: the same assumption, over a whole sequence of
  events.
- `Todo`'s fields are `var` in Kotlin, and `list + listOf(todo)` and
  `toMutableList()` make shallow copies, so successive lists share the same
  `Todo` objects. An immutable datatype loses nothing only because no code
  ever assigns those fields: every update goes through `copy`.
- Everything runs on one thread, synchronously, so there is nothing
  concurrent to model.
- The edit and delete helpers copy the list into a mutable list and change
  the copy in place. The model replaces the whole sequence value in one step.
  No other code can see the copy, so nothing observable is lost.
- `deleteItem` is a 32-bit `Int` in Kotlin. It is only ever assigned a row
  index and is never computed with, so the model uses an unbounded `int`.
- The dialog is not assumed to block other input. The invariant holds even
  if add, row or long-press events arrive while it is shown.
