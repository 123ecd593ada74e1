/**
 * The `App` component's state and its event handlers.
 *
 * The component holds the task list, the search term, the completion toggle,
 * and the two fields of the delete confirmation: the id waiting to be
 * deleted and whether the confirmation modal is visible. Every handler
 * replaces some of these fields; the list transforms it applies are the pure
 * functions of module Tasks.
 */
module App {
  import opened Wrappers
  import opened TasksSchema
  import opened Tasks
  import opened Seqs

  /** The delete confirmation as a state machine: nothing pending, or one id pending. */
  datatype Confirmation = Idle | PendingDelete(id: string)

  class TodoApp {
    var tasks: seq<Task>
    var searchTerm: string
    var showCompleted: bool
    var showConfirmModal: bool
    var taskIdToDelete: Option<string>

    /** The modal is visible exactly while a deletion is pending. */
    ghost predicate Valid()
      reads this
    {
      showConfirmModal == taskIdToDelete.Some?
    }

    ghost function ConfirmationState(): Confirmation
      reads this
    {
      match taskIdToDelete
      case None => Idle
      case Some(id) => PendingDelete(id)
    }

    /**
     * A fresh component: the task list restored from storage (empty when
     * nothing was stored), an empty search, the pending view, no deletion
     * pending.
     */
    constructor (restored: seq<Task>)
      ensures Valid()
      ensures tasks == restored && searchTerm == "" && !showCompleted
      ensures ConfirmationState() == Idle && !showConfirmModal
    {
      tasks := restored;
      searchTerm := "";
      showCompleted := false;
      showConfirmModal := false;
      taskIdToDelete := None;
    }

    /** `onSubmit`: the validated data becomes a new, not completed task at the end of the list. */
    method OnSubmit(data: TaskFormData, id: string)
      requires Valid()
      modifies this`tasks
      ensures Valid()
      ensures tasks == Append(old(tasks), data, id)
    {
      tasks := Append(tasks, data, id);
    }

    /** `handleToggleComplete`: flips `completed` on the tasks with this id. */
    method HandleToggleComplete(id: string)
      requires Valid()
      modifies this`tasks
      ensures Valid()
      ensures tasks == Toggle(old(tasks), id)
    {
      tasks := Toggle(tasks, id);
    }

    /** `openDeleteConfirmModal`: this id is now the one pending, whatever was pending before. */
    method OpenDeleteConfirmModal(id: string)
      modifies this`taskIdToDelete, this`showConfirmModal
      ensures Valid()
      ensures ConfirmationState() == PendingDelete(id) && showConfirmModal
    {
      taskIdToDelete := Some(id);
      showConfirmModal := true;
    }

    /** `closeDeleteConfirmModal`: back to idle, the task list untouched. */
    method CloseDeleteConfirmModal()
      modifies this`taskIdToDelete, this`showConfirmModal
      ensures Valid()
      ensures ConfirmationState() == Idle && !showConfirmModal
    {
      taskIdToDelete := None;
      showConfirmModal := false;
    }

    /**
     * `confirmDeleteTask`: with a pending id (a non-empty string, since the
     * empty string is falsy) removes its tasks and returns to idle;
     * otherwise does nothing at all.
     */
    method ConfirmDeleteTask()
      requires Valid()
      modifies this`tasks, this`taskIdToDelete, this`showConfirmModal
      ensures Valid()
      ensures old(taskIdToDelete).Some? && old(taskIdToDelete).value != "" ==>
        && tasks == RemoveId(old(tasks), old(taskIdToDelete).value)
        && ConfirmationState() == Idle && !showConfirmModal
      ensures !(old(taskIdToDelete).Some? && old(taskIdToDelete).value != "") ==>
        && tasks == old(tasks)
        && taskIdToDelete == old(taskIdToDelete) && showConfirmModal == old(showConfirmModal)
    {
      if taskIdToDelete.Some? && taskIdToDelete.value != "" {
        tasks := RemoveId(tasks, taskIdToDelete.value);
        CloseDeleteConfirmModal();
      }
    }

    /** `setSearchTerm`, called as the user types in the search box. */
    method SetSearchTerm(term: string)
      requires Valid()
      modifies this`searchTerm
      ensures Valid()
      ensures searchTerm == term
    {
      searchTerm := term;
    }

    /** `setShowCompleted`, called when the user flips the completion toggle. */
    method SetShowCompleted(value: bool)
      requires Valid()
      modifies this`showCompleted
      ensures Valid()
      ensures showCompleted == value
    {
      showCompleted := value;
    }

    /** `filteredTasks`: what the list shows for the current state. */
    function FilteredView(): (r: seq<Task>)
      reads this
      ensures r == FilteredTasks(tasks, searchTerm, showCompleted)
      ensures IsSubsequence(r, tasks)
      ensures forall t :: t in r <==> t in tasks && MatchesSearch(t, searchTerm) && t.completed == showCompleted
    {
      FilteredTasks(tasks, searchTerm, showCompleted)
    }
  }

  /**
   * Asking to delete one task and then another before confirming deletes
   * only the second: the last request wins.
   */
  method LastRequestWins(restored: seq<Task>, first: string, second: string) returns (remaining: seq<Task>)
    requires second != ""
    ensures remaining == RemoveId(restored, second)
    ensures first != second ==> forall t :: t in restored && t.id == first ==> t in remaining
  {
    var app := new TodoApp(restored);
    app.OpenDeleteConfirmModal(first);
    app.OpenDeleteConfirmModal(second);
    app.ConfirmDeleteTask();
    remaining := app.tasks;
  }

  /** Cancelling a pending deletion and then confirming removes nothing. */
  method CancelThenConfirm(restored: seq<Task>, id: string) returns (remaining: seq<Task>, shownModal: bool)
    ensures remaining == restored && !shownModal
  {
    var app := new TodoApp(restored);
    app.OpenDeleteConfirmModal(id);
    app.CloseDeleteConfirmModal();
    app.ConfirmDeleteTask();
    remaining, shownModal := app.tasks, app.showConfirmModal;
  }

  /** A submitted task appears in the pending view when the search term is empty. */
  method SubmittedTaskIsPending(restored: seq<Task>, data: TaskFormData, id: string) returns (view: seq<Task>)
    ensures Task(id, data, false) in view
  {
    var app := new TodoApp(restored);
    app.OnSubmit(data, id);
    FilteredEmptyTerm(app.tasks, false);
    assert Task(id, data, false) in app.tasks;
    view := app.FilteredView();
  }
}
