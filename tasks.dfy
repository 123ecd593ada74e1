/**
 * The task record and the pure list transforms the app's handlers apply to
 * its task list: appending a new task, toggling `completed` by id, removing
 * by id, and the filtered view shown to the user.
 */
module Tasks {
  import opened Seqs
  import opened TasksSchema

  /** A task: the validated form data plus its id and completion flag. */
  datatype Task = Task(id: string, data: TaskFormData, completed: bool)

  /** The task a submission creates: not completed yet. */
  function NewTask(data: TaskFormData, id: string): Task
  {
    Task(id, data, false)
  }

  /** Appending a submitted task: one more task, at the end, nothing before it changed. */
  function Append(tasks: seq<Task>, data: TaskFormData, id: string): (r: seq<Task>)
    ensures |r| == |tasks| + 1
    ensures r[..|tasks|] == tasks
    ensures r[|tasks|].id == id && r[|tasks|].data == data && !r[|tasks|].completed
  {
    tasks + [NewTask(data, id)]
  }

  function ToggleOne(t: Task, id: string): Task
  {
    if t.id == id then t.(completed := !t.completed) else t
  }

  /**
   * The `map` of `handleToggleComplete`: every task with the given id has its
   * `completed` flipped; every other task, and every other field, is kept.
   */
  function Toggle(tasks: seq<Task>, id: string): (r: seq<Task>)
    ensures |r| == |tasks|
    ensures forall i :: 0 <= i < |tasks| ==>
      && r[i].id == tasks[i].id
      && r[i].data == tasks[i].data
      && r[i].completed == (if tasks[i].id == id then !tasks[i].completed else tasks[i].completed)
  {
    if |tasks| == 0 then []
    else
      var rest := Toggle(tasks[1..], id);
      [ToggleOne(tasks[0], id)] + rest
  }

  /** Toggling the same id twice gives back the original list. */
  lemma ToggleTwice(tasks: seq<Task>, id: string)
    ensures Toggle(Toggle(tasks, id), id) == tasks
  {
  }

  /** Toggling an id no task has changes nothing. */
  lemma ToggleAbsent(tasks: seq<Task>, id: string)
    requires forall i :: 0 <= i < |tasks| ==> tasks[i].id != id
    ensures Toggle(tasks, id) == tasks
  {
  }

  predicate HasOtherId(t: Task, id: string)
  {
    t.id != id
  }

  /**
   * The `filter` of `confirmDeleteTask`: every task with the given id is
   * dropped; the rest stay, in their order.
   */
  function RemoveId(tasks: seq<Task>, id: string): (r: seq<Task>)
    ensures IsSubsequence(r, tasks)
    ensures forall t :: t in r <==> t in tasks && t.id != id
    ensures forall t: Task :: t.id != id ==> multiset(r)[t] == multiset(tasks)[t]
  {
    Filter(tasks, t => HasOtherId(t, id))
  }

  /** Removing the same id twice is the same as removing it once. */
  lemma RemoveIdTwice(tasks: seq<Task>, id: string)
    ensures RemoveId(RemoveId(tasks, id), id) == RemoveId(tasks, id)
  {
    FilterIdempotent(tasks, t => HasOtherId(t, id));
  }

  /** Removing an id no task has changes nothing. */
  lemma RemoveIdAbsent(tasks: seq<Task>, id: string)
    requires forall i :: 0 <= i < |tasks| ==> tasks[i].id != id
    ensures RemoveId(tasks, id) == tasks
  {
    FilterKeepsAll(tasks, t => HasOtherId(t, id));
  }

  // ---------------------------------------------------------------------
  // The filtered view.

  /** `toLowerCase` on ASCII letters; every other character is kept. */
  function LowerChar(c: char): (r: char)
    ensures !('A' <= r <= 'Z')
    ensures 'A' <= c <= 'Z' ==> 'a' <= r <= 'z' && r as int - 'a' as int == c as int - 'A' as int
    ensures !('A' <= c <= 'Z') ==> r == c
  {
    if 'A' <= c <= 'Z' then (c as int + 32) as char else c
  }

  /** `toLowerCase`: the same length, character by character, with no ASCII capital left. */
  function Lower(s: string): (r: string)
    ensures |r| == |s|
    ensures forall i :: 0 <= i < |s| ==> r[i] == LowerChar(s[i])
    ensures forall i :: 0 <= i < |r| ==> !('A' <= r[i] <= 'Z')
    ensures forall i :: 0 <= i < |s| && !('A' <= s[i] <= 'Z') ==> r[i] == s[i]
  {
    seq(|s|, i requires 0 <= i < |s| => LowerChar(s[i]))
  }

  /** Lower-casing is idempotent. */
  lemma LowerIdempotent(s: string)
    ensures Lower(Lower(s)) == Lower(s)
  {
  }

  /** The search term occurs, ignoring case, in the task's name or its assignee. */
  predicate MatchesSearch(t: Task, term: string)
  {
    Includes(Lower(t.data.taskName), Lower(term)) || Includes(Lower(t.data.assignee), Lower(term))
  }

  /** The view shows completed tasks or pending ones, never both. */
  predicate MatchesCompletion(t: Task, showCompleted: bool)
  {
    if showCompleted then t.completed else !t.completed
  }

  predicate Shown(t: Task, term: string, showCompleted: bool)
  {
    MatchesSearch(t, term) && MatchesCompletion(t, showCompleted)
  }

  /** `filteredTasks`: the tasks that match both the search term and the completion toggle. */
  function FilteredTasks(tasks: seq<Task>, term: string, showCompleted: bool): (r: seq<Task>)
    ensures IsSubsequence(r, tasks)
    ensures forall t :: t in r <==> t in tasks && Shown(t, term, showCompleted)
    ensures forall t :: t in r ==> t.completed == showCompleted
    ensures forall t :: Shown(t, term, showCompleted) ==> multiset(r)[t] == multiset(tasks)[t]
  {
    Filter(tasks, t => Shown(t, term, showCompleted))
  }

  predicate HasCompletion(t: Task, showCompleted: bool)
  {
    t.completed == showCompleted
  }

  /** With an empty search term the view is exactly the tasks in the chosen completion state. */
  lemma FilteredEmptyTerm(tasks: seq<Task>, showCompleted: bool)
    ensures FilteredTasks(tasks, "", showCompleted) == Filter(tasks, t => HasCompletion(t, showCompleted))
  {
    forall i | 0 <= i < |tasks|
      ensures Shown(tasks[i], "", showCompleted) == HasCompletion(tasks[i], showCompleted)
    {
      IncludesIff(Lower(tasks[i].data.taskName), Lower(""));
      assert OccursAt(Lower(tasks[i].data.taskName), Lower(""), 0);
    }
    FilterCongruent(tasks, t => Shown(t, "", showCompleted), t => HasCompletion(t, showCompleted));
  }

  /** The search ignores the case of the term. */
  lemma FilteredIgnoresTermCase(tasks: seq<Task>, term: string, showCompleted: bool)
    ensures FilteredTasks(tasks, Lower(term), showCompleted) == FilteredTasks(tasks, term, showCompleted)
  {
    LowerIdempotent(term);
    FilterCongruent(tasks, t => Shown(t, Lower(term), showCompleted), t => Shown(t, term, showCompleted));
  }

  /** With an empty search term, the completed view and the pending view together hold every task once. */
  lemma ViewsPartition(tasks: seq<Task>)
    ensures multiset(FilteredTasks(tasks, "", true)) + multiset(FilteredTasks(tasks, "", false)) == multiset(tasks)
    ensures |FilteredTasks(tasks, "", true)| + |FilteredTasks(tasks, "", false)| == |tasks|
  {
    var done, pending := FilteredTasks(tasks, "", true), FilteredTasks(tasks, "", false);
    forall t: Task
      ensures (multiset(done) + multiset(pending))[t] == multiset(tasks)[t]
    {
      assert |Lower("")| == 0;
      assert Shown(t, "", t.completed) && !Shown(t, "", !t.completed);
    }
    assert multiset(done) + multiset(pending) == multiset(tasks);
    assert |multiset(done)| == |done| && |multiset(pending)| == |pending| && |multiset(tasks)| == |tasks|;
  }
}
