/** The creation form: its three text fields and its submit handler, which
    rejects a blank title and otherwise hands the title and description to
    the board's add handler. */
module TaskForm {

  import opened Tasks
  import opened JsString
  import opened TaskList
  import opened Storage
  import opened Board

  /** The message shown under the title field after a blank submit. */
  const TitleRequired: string := "Task title is required"

  class TaskFormModal {
    var title: string
    var desc: string
    var errorMsg: string
    /** The board whose add handler the form calls. */
    const board: TaskBoard

    constructor (board: TaskBoard)
      ensures this.board == board
      ensures title == "" && desc == "" && errorMsg == ""
    {
      this.board := board;
      title, desc, errorMsg := "", "", "";
    }

    /** Typing in the title field. */
    method EditTitle(text: string)
      modifies `title
      ensures title == text
    {
      title := text;
    }

    /** Typing in the description field. */
    method EditDescription(text: string)
      modifies `desc
      ensures desc == text
    {
      desc := text;
    }

    /** Submitting, possible only while the form is shown: a title that is
        blank after trimming sets the error message and adds nothing.
        Otherwise the untrimmed title and the description go to the board,
        which appends them as a backlog task and closes the form, and the
        three fields are cleared. */
    method Submit(id: string, created: string)
      requires board.Valid() && board.formOpen
      modifies this, board, board.storage
      ensures board.Valid()
      ensures board.dragged == old(board.dragged)
      ensures IsBlank(old(title)) ==>
                && errorMsg == TitleRequired && title == old(title) && desc == old(desc)
                && board.tasks == old(board.tasks) && board.formOpen == old(board.formOpen)
                && board.storage.items == old(board.storage.items)
      ensures !IsBlank(old(title)) ==>
                && board.tasks == old(board.tasks) + [Task(id, old(title), old(desc), Backlog, created)]
                && !board.formOpen
                && board.storage.items == old(board.storage.items)[StorageKey := board.tasks]
                && title == "" && desc == "" && errorMsg == ""
      ensures AllTitled(old(board.tasks)) ==> AllTitled(board.tasks)
    {
      if IsBlank(title) {
        errorMsg := TitleRequired;
        return;
      }
      NotBlankIsNonEmpty(title);
      board.AddTask(title, desc, id, created);
      title, desc, errorMsg := "", "", "";
    }

    /** The close and cancel buttons. */
    method Cancel()
      modifies board`formOpen
      ensures !board.formOpen
    {
      board.CloseForm();
    }
  }

  /** A user opens the form, submits a blank title, then a real one. */
  method FormWalkthrough(id: string, created: string)
  {
    var blank, read := "   ", " Read ";
    assert AllWhitespace(blank);
    assert !AllWhitespace(read) by { assert read[1] == 'R'; }

    var ls := new LocalStorage(map[]);
    var board := new TaskBoard(ls);
    board.OpenForm();
    var form := new TaskFormModal(board);

    form.EditTitle(blank);
    form.Submit(id, created);
    assert board.tasks == [] && form.errorMsg == TitleRequired && board.formOpen;

    form.EditTitle(read);
    form.EditDescription("chapter 2");
    form.Submit(id, created);
    assert board.tasks == [Task(id, read, "chapter 2", Backlog, created)];
    assert !board.formOpen && form.title == "" && form.errorMsg == "";
  }
}
