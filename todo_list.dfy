/**
  The `TodoList` screen component: its five pieces of state and the handlers
  that replace them. A handler that persists a new list is modelled as
  committing that list at once (the write and the read-back both succeed).
 */
module TodoScreen {
  import opened Tasks
  import opened Whitespace

  datatype Option<T> = None | Some(value: T)

  /** The `{editing, item}` and `{show, item}` pairs: a flag and the record it refers to. */
  datatype Selection = Selection(active: bool, item: Option<Task>)

  /** `{editing: false, item: null}` / `{show: false, item: null}`. */
  const Cleared := Selection(false, None)

  /** The list the screen starts with: one record "One" with no `completed`
      property. Its ids are increasing, the next add gets id 2, and the record
      counts as done. */
  function Seed(now: Timestamp): (l: seq<Task>)
    ensures |l| == 1 && StrictlyIncreasing(l) && NextId(l) == 2
    ensures CountDone(l) == 1
  {
    [Task(1, "One", Absent, now)]
  }

  class TodoList {
    var todoList: seq<Task>     // the committed task list
    var todo: string            // the text-entry buffer of the dialog
    var modalVisible: bool      // whether the add/update dialog is shown
    var isEditing: Selection    // update mode and the record being edited
    var showSingle: Selection   // detail view and the record shown

    /** The list's ids strictly increase; every handler below keeps this. */
    ghost predicate WellNumbered()
      reads this
    {
      StrictlyIncreasing(todoList)
    }

    constructor (now: Timestamp)
      ensures todoList == Seed(now) && todo == "" && !modalVisible
      ensures isEditing == Cleared && showSingle == Cleared
      ensures WellNumbered()
    {
      todoList := Seed(now);
      todo := "";
      modalVisible := false;
      isEditing := Cleared;
      showSingle := Cleared;
    }

    /** Start-up load: a stored list (present and parsed) replaces the current
        one; a missing or unreadable one leaves it as it is. */
    method Load(stored: Option<seq<Task>>)
      modifies this`todoList
      ensures todoList == if stored.Some? then stored.value else old(todoList)
    {
      if stored.Some? {
        todoList := stored.value;
      }
    }

    /** The "+" button: shows the dialog and touches nothing else, so the dialog
        opens in whatever mode, and with whatever buffer, was left behind. */
    method OpenAddModal()
      modifies this`modalVisible
      ensures modalVisible
    {
      modalVisible := true;
    }

    /** Typing in the dialog replaces the buffer. */
    method ChangeText(text: string)
      modifies this`todo
      ensures todo == text
    {
      todo := text;
    }

    /** The dialog's Add/Update button. In update mode the text of the edited
        record is replaced by the buffer, with no blank check, and update mode
        ends. Otherwise a blank buffer only raises the error cue (`shake`) and
        changes nothing; a non-blank one is appended as a new, not completed
        record. Either way a committed change empties the buffer and closes the
        dialog. */
    method AddTask(now: Timestamp) returns (shake: bool)
      modifies this`todoList, this`todo, this`modalVisible, this`isEditing
      ensures shake <==> !old(isEditing.active) && IsBlank(old(todo))
      ensures shake ==> unchanged(this)
      ensures old(isEditing.active) ==>
                && todoList == (if old(isEditing.item).Some?
                                then Rename(old(todoList), old(isEditing.item).value.id, old(todo))
                                else old(todoList))
                && todo == "" && !modalVisible && isEditing == Cleared
      ensures !old(isEditing.active) && !shake ==>
                && todoList == Append(old(todoList), old(todo), now)
                && todo == "" && !modalVisible && isEditing == old(isEditing)
      ensures old(WellNumbered()) ==> WellNumbered()
    {
      if isEditing.active {
        var newState := todoList;
        if isEditing.item.Some? {
          newState := Rename(todoList, isEditing.item.value.id, todo);
          RenameKeepsOthers(todoList, isEditing.item.value.id, todo);
        }
        todo := "";
        modalVisible := false;
        isEditing := Cleared;
        todoList := newState;
        shake := false;
      } else {
        if IsBlank(todo) {
          return true;
        }
        if WellNumbered() {
          AppendKeepsIncreasing(todoList, todo, now);
        }
        var newState := Append(todoList, todo, now);
        todo := "";
        modalVisible := false;
        todoList := newState;
        shake := false;
      }
    }

    /** The checkbox: sets `completed` of the records with the item's id. */
    method SetChecked(item: Task, isChecked: bool)
      modifies this`todoList
      ensures todoList == SetCompleted(old(todoList), item.id, isChecked)
      ensures old(WellNumbered()) ==> WellNumbered()
    {
      todoList := SetCompleted(todoList, item.id, isChecked);
    }

    /** The edit icon: enters update mode for the item, opens the dialog and
        loads the item's text into the buffer. */
    method ToggleEditTask(item: Task)
      modifies this`isEditing, this`modalVisible, this`todo
      ensures isEditing == Selection(true, Some(item)) && modalVisible && todo == item.task
    {
      isEditing := Selection(true, Some(item));
      modalVisible := true;
      todo := item.task;
    }

    /** The confirmed delete: drops the records with the item's id. */
    method DeleteTask(item: Task)
      modifies this`todoList
      ensures todoList == Remove(old(todoList), item.id)
      ensures old(WellNumbered()) ==> WellNumbered()
    {
      if WellNumbered() {
        RemoveKeepsIncreasing(todoList, item.id);
      }
      todoList := Remove(todoList, item.id);
    }

    /** The dialog's Cancel text and its `onRequestClose` (both hide the dialog
        only): update mode and the buffer survive. */
    method HideModal()
      modifies this`modalVisible
      ensures !modalVisible
    {
      modalVisible := false;
    }

    /** Tapping a record's text: shows the detail view of that record. */
    method ShowDetail(item: Task)
      modifies this`showSingle
      ensures showSingle == Selection(true, Some(item))
    {
      showSingle := Selection(true, Some(item));
    }

    /** The back icon of the detail view: returns to the list. */
    method HideDetail()
      modifies this`showSingle
      ensures showSingle == Cleared
    {
      showSingle := Cleared;
    }
  }

  /** A freshly started screen already shows a full bar and plays the completion
      animation: the seed record has no `completed` property, so it counts as done. */
  lemma SeedStartsComplete(now: Timestamp)
    ensures IsComplete(Progress(Seed(now)))
    ensures Seed(now)[0].completed != Present(true)
  {
  }

  /** Adding "Buy milk" to a list holding one record that is not completed. */
  method ScenarioAdd(t0: Timestamp, t1: Timestamp)
  {
    var screen := new TodoList(t0);
    var one := Task(1, "One", Present(false), t0);
    screen.Load(Some([one]));
    screen.OpenAddModal();
    screen.ChangeText("Buy milk");
    NotBlankWhenSomeCharIsVisible("Buy milk", 0);
    assert screen.isEditing == Cleared && screen.todoList == [one];
    var shake := screen.AddTask(t1);
    var milk := Task(2, "Buy milk", Present(false), t1);
    assert !shake && screen.todoList == Append([one], "Buy milk", t1) == [one, milk];
    assert !screen.modalVisible && screen.todo == "";
    AppendProgress([one], "Buy milk", t1);
    assert Progress(screen.todoList) == Counts(0, 2);
  }

  /** Checking the second of two open records, then deleting the first. */
  method ScenarioCheckThenDelete(t0: Timestamp, t1: Timestamp)
  {
    var screen := new TodoList(t0);
    var one := Task(1, "One", Present(false), t0);
    var milk := Task(2, "Buy milk", Present(false), t1);
    screen.Load(Some([one, milk]));

    screen.SetChecked(milk, true);
    var milkDone := milk.(completed := Present(true));
    assert screen.todoList == SetCompleted([one, milk], 2, true);
    assert screen.todoList == [one, milkDone];
    CountDoneConcat([one], [milkDone]);
    assert [one] + [milkDone] == [one, milkDone];
    assert Progress(screen.todoList) == Counts(1, 2);

    screen.DeleteTask(one);
    RemoveUnique([one, milkDone], 0);
    assert screen.todoList == [milkDone];
    assert IsComplete(Progress(screen.todoList));
  }

  /** Cancelling an edit leaves update mode on: the next "+" opens the dialog in
      update mode with the old text, and pressing its button renames the edited
      record instead of adding one. */
  method ScenarioCancelledEditStaysUpdate(t0: Timestamp, t1: Timestamp)
  {
    var screen := new TodoList(t0);
    var seed := screen.todoList[0];
    screen.ToggleEditTask(seed);
    screen.HideModal();
    assert screen.isEditing.active && screen.todo == "One";

    screen.OpenAddModal();
    screen.ChangeText("Two");
    assert screen.isEditing == Selection(true, Some(seed)) && screen.todoList == [seed];
    var shake := screen.AddTask(t1);
    assert !shake && screen.isEditing == Cleared;
    assert screen.todoList == Rename([seed], seed.id, "Two");
    assert screen.todoList == [seed.(task := "Two")];
  }

  /** In update mode a blank buffer is committed as the record's new text. */
  method ScenarioUpdateToBlank(t0: Timestamp, t1: Timestamp)
  {
    var screen := new TodoList(t0);
    var seed := screen.todoList[0];
    screen.ToggleEditTask(seed);
    screen.ChangeText("  ");
    assert screen.isEditing == Selection(true, Some(seed)) && screen.todoList == [seed];
    var shake := screen.AddTask(t1);
    assert screen.todoList == Rename([seed], seed.id, "  ");
    assert !shake && screen.todoList == [seed.(task := "  ")];
  }
}
