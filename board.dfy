/** The board component: the task list with its handlers, the flag that
    shows the creation form, and the task being dragged. Every change of
    the list is written back to storage, as the component's effect does. */
module Board {

  import opened Wrappers
  import opened Tasks
  import opened TaskList
  import opened Storage

  class TaskBoard {
    var tasks: seq<Task>
    var formOpen: bool
    var dragged: Option<Task>
    const storage: LocalStorage

    /** The stored entry mirrors the in-memory list. */
    ghost predicate Valid()
      reads this, storage
    {
      storage.Mirrors(tasks)
    }

    /** Mounting: load the saved list (empty when there is none), close the
        form, drag nothing, then write the list back. */
    constructor (storage: LocalStorage)
      modifies storage
      ensures Valid()
      ensures this.storage == storage
      ensures tasks == SavedTasks(old(storage.items))
      ensures !formOpen && dragged == None
      ensures storage.items == old(storage.items)[StorageKey := tasks]
    {
      var saved := storage.GetItem(StorageKey);
      this.storage := storage;
      tasks := if saved.Some? then saved.value else [];
      formOpen := false;
      dragged := None;
      new;
      storage.SetItem(StorageKey, tasks);
    }

    /** The list changes: store it and write it back. */
    method SetTasks(ts: seq<Task>)
      requires Valid()
      modifies this, storage
      ensures Valid()
      ensures tasks == ts
      ensures formOpen == old(formOpen) && dragged == old(dragged)
      ensures storage.items == old(storage.items)[StorageKey := ts]
    {
      tasks := ts;
      storage.SetItem(StorageKey, ts);
    }

    /** Adding: an empty title is ignored. Otherwise exactly one task is
        appended, in the backlog, with the given fields, and the form closes. */
    method AddTask(title: string, description: string, id: string, created: string)
      requires Valid()
      modifies this, storage
      ensures Valid()
      ensures dragged == old(dragged)
      ensures title == "" ==>
                tasks == old(tasks) && formOpen == old(formOpen) && storage.items == old(storage.items)
      ensures title != "" ==>
                && |tasks| == |old(tasks)| + 1
                && tasks[..|old(tasks)|] == old(tasks)
                && tasks[|old(tasks)|] == Task(id, title, description, Backlog, created)
                && !formOpen
                && storage.items == old(storage.items)[StorageKey := tasks]
      ensures AllTitled(old(tasks)) ==> AllTitled(tasks)
    {
      if title == "" {
        return;
      }
      var t := Task(id, title, description, Backlog, created);
      SetTasks(tasks + [t]);
      formOpen := false;
    }

    /** Moving: every task with the id gets the new status; see WithStatus. */
    method MoveTaskToColumn(id: string, s: Status)
      requires Valid()
      modifies this, storage
      ensures Valid()
      ensures tasks == WithStatus(old(tasks), id, s)
      ensures formOpen == old(formOpen) && dragged == old(dragged)
      ensures storage.items == old(storage.items)[StorageKey := tasks]
      ensures AllTitled(old(tasks)) ==> AllTitled(tasks)
    {
      if AllTitled(tasks) {
        TitlesKept(tasks, id, s);
      }
      SetTasks(WithStatus(tasks, id, s));
    }

    /** Deleting, after the user's answer `confirmed` to the confirmation
        prompt: every task with the id goes; without confirmation nothing
        changes. */
    method RemoveTask(id: string, confirmed: bool)
      requires Valid()
      modifies this, storage
      ensures Valid()
      ensures tasks == if confirmed then Without(old(tasks), id) else old(tasks)
      ensures formOpen == old(formOpen) && dragged == old(dragged)
      ensures !confirmed ==> storage.items == old(storage.items)
      ensures confirmed ==> storage.items == old(storage.items)[StorageKey := tasks]
      ensures AllTitled(old(tasks)) ==> AllTitled(tasks)
    {
      if AllTitled(tasks) {
        TitlesKept(tasks, id, Backlog);
      }
      if confirmed {
        SetTasks(Without(tasks, id));
      }
    }

    /** A drag starts: remember the card's task as it is now. */
    method StartDragging(task: Task)
      modifies `dragged
      ensures dragged == Some(task)
      ensures tasks == old(tasks) && formOpen == old(formOpen)
    {
      dragged := Some(task);
    }

    /** A drop on column `target`: the remembered task moves only when its
        remembered status differs from the target; the drag ends either way. */
    method DropTask(target: Status)
      requires Valid()
      modifies this, storage
      ensures Valid()
      ensures dragged == None && formOpen == old(formOpen)
      ensures old(dragged).Some? && old(dragged).value.status != target ==>
                tasks == WithStatus(old(tasks), old(dragged).value.id, target)
                && storage.items == old(storage.items)[StorageKey := tasks]
      ensures old(dragged).None? || old(dragged).value.status == target ==>
                tasks == old(tasks) && storage.items == old(storage.items)
      ensures AllTitled(old(tasks)) ==> AllTitled(tasks)
    {
      if dragged.Some? && dragged.value.status != target {
        MoveTaskToColumn(dragged.value.id, target);
      }
      dragged := None;
    }

    /** The "New Task" and "Create first task" buttons. */
    method OpenForm()
      modifies `formOpen
      ensures formOpen
    {
      formOpen := true;
    }

    /** The form's close and cancel buttons. */
    method CloseForm()
      modifies `formOpen
      ensures !formOpen
    {
      formOpen := false;
    }
  }

  /** The walkthrough a user of the board goes through, checked against the
      contracts above alone. */
  method Walkthrough(id: string, created: string)
  {
    var ls := new LocalStorage(map[]);
    var board := new TaskBoard(ls);
    assert board.tasks == [];

    board.AddTask("", "desc", id, created);
    assert board.tasks == [];

    board.OpenForm();
    board.AddTask("Buy milk", "", id, created);
    var milk := Task(id, "Buy milk", "", Backlog, created);
    assert board.tasks == [milk] && !board.formOpen;

    board.StartDragging(milk);
    board.DropTask(Done);
    var done := milk.(status := Done);
    assert board.tasks == [done] && board.dragged == None;
    assert done in Column(board.tasks, Done);
    assert Column(board.tasks, Backlog) == [];

    board.StartDragging(done);
    board.DropTask(Done);
    assert board.tasks == [done];

    board.RemoveTask(id, false);
    assert board.tasks == [done];
    board.RemoveTask(id, true);
    assert board.tasks == [];

    var reloaded := new TaskBoard(ls);
    assert reloaded.tasks == [];
  }
}
