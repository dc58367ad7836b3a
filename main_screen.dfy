/** The state that the main screen keeps (the list, whether the delete
    dialog is shown, the index awaiting deletion) and the effect of every
    user event on it, as pure functions. */
module MainScreen {
  import opened Todos
  import opened TodoItem

  /** The list after the add helper: `todo` at the end, everything else kept. */
  function Appended(s: seq<Todo>, todo: Todo): (r: seq<Todo>)
    ensures |r| == |s| + 1
    ensures r[..|s|] == s && r[|s|] == todo
  {
    s + [todo]
  }

  /** The list after the edit helper: position i holds `todo`, the length
      and every other position are unchanged. */
  function Replaced(s: seq<Todo>, i: int, todo: Todo): (r: seq<Todo>)
    requires 0 <= i < |s|
    ensures |r| == |s| && r[i] == todo
    ensures forall j :: 0 <= j < |s| && j != i ==> r[j] == s[j]
  {
    s[i := todo]
  }

  /** The list after the delete helper: position i is gone, earlier entries
      keep their positions and later ones move down by one. */
  function Removed(s: seq<Todo>, i: int): (r: seq<Todo>)
    requires 0 <= i < |s|
    ensures |r| == |s| - 1
    ensures forall j :: 0 <= j < i ==> r[j] == s[j]
    ensures forall j :: i <= j < |r| ==> r[j] == s[j + 1]
  {
    s[..i] + s[i + 1..]
  }

  /** Deleting the entry just added gives back the list as it was. */
  lemma RemovedUndoesAppended(s: seq<Todo>, todo: Todo)
    ensures Removed(Appended(s, todo), |s|) == s
  {
  }

  /** Writing back the entry that is already there changes nothing. */
  lemma ReplacedSameIsIdentity(s: seq<Todo>, i: int)
    requires 0 <= i < |s|
    ensures Replaced(s, i, s[i]) == s
  {
  }

  /** Two edits of the same position: the second one wins. */
  lemma ReplacedTwice(s: seq<Todo>, i: int, a: Todo, b: Todo)
    requires 0 <= i < |s|
    ensures Replaced(Replaced(s, i, a), i, b) == Replaced(s, i, b)
  {
  }

  datatype Screen = Screen(list: seq<Todo>, showDialog: bool, deleteItem: int)

  /** Empty list, dialog closed, index 0. */
  function Initial(): Screen
  {
    Screen([], false, 0)
  }

  /** The user events the screen reacts to. */
  datatype Event =
    | AddClicked                        // the add action of the top bar
    | RowInput(row: int, e: RowEvent)   // a control inside row `row`
    | LongPressed(row: int)             // a long press on row `row`
    | ConfirmClicked                    // the dialog's confirm button
    | CancelClicked                     // the dialog's cancel button
    | DialogDismissed                   // the dialog dismissed from outside

  /** Whether the rendered screen shows the control that raises `ev`: rows
      exist for the indices of the list, a row shows the controls of its view,
      and the dialog is drawn only while `showDialog` holds. */
  predicate Enabled(st: Screen, ev: Event)
    // a row control or a long press always belongs to a row of the current list
    ensures Enabled(st, ev) && (ev.RowInput? || ev.LongPressed?) ==> 0 <= ev.row < |st.list|
    // the dialog's controls exist only while the dialog is shown
    ensures Enabled(st, ev) && (ev.ConfirmClicked? || ev.CancelClicked? || ev.DialogDismissed?) ==>
              st.showDialog
  {
    match ev
    case AddClicked => true
    case RowInput(i, e) => 0 <= i < |st.list| && Offers(st.list[i], e)
    case LongPressed(i) => 0 <= i < |st.list|
    case ConfirmClicked => st.showDialog
    case CancelClicked => st.showDialog
    case DialogDismissed => st.showDialog
  }

  /** The outcome of a handler: the new state, or the exception that an
      out-of-range index raises in the list helpers. */
  datatype Outcome = Ok(screen: Screen) | IndexOutOfBounds

  /** The effect of one event. */
  function Step(st: Screen, ev: Event): (r: Outcome)
    // only the index-taking list helpers can fail, and only out of range
    ensures r.IndexOutOfBounds? <==>
              (ev.RowInput? && !(0 <= ev.row < |st.list|)) ||
              (ev.ConfirmClicked? && !(0 <= st.deleteItem < |st.list|))
    // only a long press changes the index awaiting deletion
    ensures r.Ok? && !ev.LongPressed? ==> r.screen.deleteItem == st.deleteItem
    // only a long press opens the dialog; every dialog button closes it
    ensures r.Ok? && r.screen.showDialog && !st.showDialog ==> ev.LongPressed?
    ensures r.Ok? && (ev.ConfirmClicked? || ev.CancelClicked? || ev.DialogDismissed?) ==>
              !r.screen.showDialog
  {
    match ev
    case AddClicked =>
      Ok(st.(list := Appended(st.list, Default())))
    case RowInput(i, e) =>
      if 0 <= i < |st.list| then Ok(st.(list := Replaced(st.list, i, Apply(st.list[i], e))))
      else IndexOutOfBounds
    case LongPressed(i) =>
      Ok(st.(deleteItem := i, showDialog := true))
    case ConfirmClicked =>
      if 0 <= st.deleteItem < |st.list| then
        Ok(st.(list := Removed(st.list, st.deleteItem), showDialog := false))
      else IndexOutOfBounds
    case CancelClicked =>
      Ok(st.(showDialog := false))
    case DialogDismissed =>
      Ok(st.(showDialog := false))
  }

  /** The effect of a sequence of events, stopping at the first exception. */
  function Run(st: Screen, evs: seq<Event>): Outcome
    decreases |evs|
  {
    if evs == [] then Ok(st)
    else match Step(st, evs[0])
      case Ok(next) => Run(next, evs[1..])
      case IndexOutOfBounds => IndexOutOfBounds
  }

  /** Every event of `evs` is raised by a control shown at the time. */
  predicate UserTrace(st: Screen, evs: seq<Event>)
    decreases |evs|
  {
    evs == [] ||
    (Enabled(st, evs[0]) &&
     match Step(st, evs[0])
     case Ok(next) => UserTrace(next, evs[1..])
     case IndexOutOfBounds => true)
  }

  /** The invariant of reachable states: a pending delete names an existing
      row, and no row in edit mode is marked done. */
  predicate Valid(st: Screen)
  {
    (st.showDialog ==> 0 <= st.deleteItem < |st.list|) &&
    forall j :: 0 <= j < |st.list| ==> Consistent(st.list[j])
  }

  lemma InitialValid()
    ensures Valid(Initial())
  {
  }

  /** An event the screen offers never raises and keeps the invariant. */
  lemma StepPreservesValid(st: Screen, ev: Event)
    requires Valid(st) && Enabled(st, ev)
    ensures Step(st, ev).Ok? && Valid(Step(st, ev).screen)
  {
    match ev
    case RowInput(i, e) =>
      ApplyKeepsConsistent(st.list[i], e);
    case _ =>
  }

  /** A user trace from a valid state never raises and ends valid. */
  lemma {:induction false} RunPreservesValid(st: Screen, evs: seq<Event>)
    requires Valid(st) && UserTrace(st, evs)
    ensures Run(st, evs).Ok? && Valid(Run(st, evs).screen)
    decreases |evs|
  {
    if evs != [] {
      StepPreservesValid(st, evs[0]);
      RunPreservesValid(Step(st, evs[0]).screen, evs[1..]);
    }
  }

  /** Along a user trace the list grows by one per add and shrinks by one per
      confirmed delete; no other event changes its length. */
  lemma {:induction false} RunLength(st: Screen, evs: seq<Event>)
    requires Valid(st) && UserTrace(st, evs)
    ensures Run(st, evs).Ok?
    ensures |Run(st, evs).screen.list|
            == |st.list| + multiset(evs)[AddClicked] - multiset(evs)[ConfirmClicked]
    decreases |evs|
  {
    if evs != [] {
      StepPreservesValid(st, evs[0]);
      RunLength(Step(st, evs[0]).screen, evs[1..]);
      assert evs == [evs[0]] + evs[1..];
      assert multiset(evs) == multiset{evs[0]} + multiset(evs[1..]);
    }
  }

  /** A long press followed by cancel or dismiss leaves the list and the
      dialog as they were before the press (with the dialog closed). */
  lemma RequestThenCancel(st: Screen, i: int, close: Event)
    requires close == CancelClicked || close == DialogDismissed
    ensures Run(st, [LongPressed(i), close]) == Ok(st.(showDialog := false, deleteItem := i))
  {
    var pending := st.(deleteItem := i, showDialog := true);
    assert [LongPressed(i), close][1..] == [close] && [close][1..] == [];
    assert Run(pending, [close]) == Run(pending.(showDialog := false), []);
  }

  /** A long press on row i followed by confirm removes exactly row i and
      closes the dialog. */
  lemma RequestThenConfirm(st: Screen, i: int)
    requires 0 <= i < |st.list|
    ensures Run(st, [LongPressed(i), ConfirmClicked])
            == Ok(Screen(Removed(st.list, i), false, i))
  {
    var pending := st.(deleteItem := i, showDialog := true);
    assert [LongPressed(i), ConfirmClicked][1..] == [ConfirmClicked] && [ConfirmClicked][1..] == [];
    assert Run(pending, [ConfirmClicked]) == Run(Screen(Removed(st.list, i), false, i), []);
  }

  /** n clicks on add append n default records, each not done and in edit mode. */
  lemma {:induction false} AddClicks(st: Screen, n: nat)
    ensures Run(st, seq(n, _ => AddClicked))
            == Ok(st.(list := st.list + seq(n, _ => Default())))
    decreases n
  {
    if n > 0 {
      var next := st.(list := st.list + [Default()]);
      assert seq(n, _ => AddClicked)[1..] == seq(n - 1, _ => AddClicked);
      AddClicks(next, n - 1);
      assert next.list + seq(n - 1, _ => Default()) == st.list + seq(n, _ => Default());
    }
  }

  /** Add a row, type "Buy milk", finish editing, tick it, then long-press it
      and confirm: each intermediate list is as the user sees it, the trace
      uses only controls on screen, and the list ends empty. */
  lemma Scenario()
    ensures Run(Initial(), [AddClicked]) == Ok(Screen([Todo("", false, true)], false, 0))
    ensures Run(Initial(), [AddClicked, RowInput(0, TextChanged("Buy milk")), RowInput(0, DoneClicked)])
            == Ok(Screen([Todo("Buy milk", false, false)], false, 0))
    ensures Run(Initial(), [AddClicked, RowInput(0, TextChanged("Buy milk")), RowInput(0, DoneClicked),
                            RowInput(0, CheckedChanged(true))])
            == Ok(Screen([Todo("Buy milk", true, false)], false, 0))
    ensures UserTrace(Initial(), [AddClicked, RowInput(0, TextChanged("Buy milk")), RowInput(0, DoneClicked),
                                  RowInput(0, CheckedChanged(true)), LongPressed(0), ConfirmClicked])
    ensures Run(Initial(), [AddClicked, RowInput(0, TextChanged("Buy milk")), RowInput(0, DoneClicked),
                            RowInput(0, CheckedChanged(true)), LongPressed(0), ConfirmClicked])
            == Ok(Screen([], false, 0))
  {
  }
}
