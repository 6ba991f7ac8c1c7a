/**
 The to-do list controller: an ordered list of records and the name of the
 current filter, five operations that change them, the filtered view and the
 remaining-task count that rendering derives from them.
 */
module App {
  import opened Sequences
  import opened Text

  datatype Option<T> = None | Some(value: T)

  /** One to-do record as stored and rendered. */
  datatype Todo = Todo(id: int, text: string, completed: bool)

  /** The filter names the filter buttons carry; any other name shows everything. */
  const ActiveFilter: string := "active"
  const CompletedFilter: string := "completed"
  const AllFilter: string := "all"

  predicate IsActive(t: Todo) { !t.completed }

  predicate IsCompleted(t: Todo) { t.completed }

  /** The not-completed records, every copy of each, in list order. */
  function ActiveTodos(ts: seq<Todo>): (r: seq<Todo>)
    ensures IsSubsequence(r, ts)
    ensures forall x {:trigger multiset(r)[x]} :: multiset(r)[x] == if !x.completed then multiset(ts)[x] else 0
  {
    FilterIsSubsequence(ts, IsActive);
    FilterMultiplicity(ts, IsActive);
    Filter(ts, IsActive)
  }

  /** The completed records, every copy of each, in list order. */
  function CompletedTodos(ts: seq<Todo>): (r: seq<Todo>)
    ensures IsSubsequence(r, ts)
    ensures forall x {:trigger multiset(r)[x]} :: multiset(r)[x] == if x.completed then multiset(ts)[x] else 0
  {
    FilterIsSubsequence(ts, IsCompleted);
    FilterMultiplicity(ts, IsCompleted);
    Filter(ts, IsCompleted)
  }

  /** The test deleteTodo keeps a record by. */
  function HasOtherId(id: int): Todo -> bool
  {
    (t: Todo) => t.id != id
  }

  /** The test that selects the records deleteTodo drops. */
  function HasId(id: int): Todo -> bool
  {
    (t: Todo) => t.id == id
  }

  /** The records whose id differs from id, every copy of each, in list order. */
  function WithoutId(ts: seq<Todo>, id: int): (r: seq<Todo>)
    ensures IsSubsequence(r, ts)
    ensures forall x {:trigger multiset(r)[x]} :: multiset(r)[x] == if x.id != id then multiset(ts)[x] else 0
  {
    FilterIsSubsequence(ts, HasOtherId(id));
    FilterMultiplicity(ts, HasOtherId(id));
    Filter(ts, HasOtherId(id))
  }

  /** The number of not-completed records: the footer count. */
  function Remaining(ts: seq<Todo>): (n: nat)
    ensures n + |CompletedTodos(ts)| == |ts|
    ensures n == |ts| <==> forall k :: 0 <= k < |ts| ==> !ts[k].completed
  {
    FilterPartition(ts, IsActive, IsCompleted);
    FilterEmptyIff(ts, IsCompleted);
    |ActiveTodos(ts)|
  }

  function IdOf(t: Todo): int { t.id }

  /** No two records share an id (a property the code does not enforce). */
  predicate UniqueIds(ts: seq<Todo>)
  {
    forall j, k :: 0 <= j < k < |ts| ==> ts[j].id != ts[k].id
  }

  // ---------------------------------------------------------------------
  // Add
  // ---------------------------------------------------------------------

  /** The list after submitting input with the new record's id: unchanged when the trimmed input is empty. */
  function Added(ts: seq<Todo>, input: string, id: int): (r: seq<Todo>)
    ensures Trim(input) == [] ==> r == ts
    ensures Trim(input) != [] ==>
              && |r| == |ts| + 1 && r[..|ts|] == ts
              && r[|ts|].id == id && r[|ts|].text == Trim(input) && !r[|ts|].completed
  {
    var text := Trim(input);
    if text == [] then ts else ts + [Todo(id, text, false)]
  }

  /** A record is added exactly when the input holds a non-white character. */
  lemma AddedIff(ts: seq<Todo>, input: string, id: int)
    ensures |Added(ts, input, id)| == |ts| + 1 <==> exists k :: 0 <= k < |input| && !IsWhiteSpace(input[k])
    ensures |Added(ts, input, id)| != |ts| + 1 ==> Added(ts, input, id) == ts
  {
  }

  /** Adding a record adds one to the remaining count and appends it to the active view. */
  lemma AddedRemaining(ts: seq<Todo>, input: string, id: int)
    requires Trim(input) != []
    ensures ActiveTodos(Added(ts, input, id)) == ActiveTodos(ts) + [Added(ts, input, id)[|ts|]]
    ensures CompletedTodos(Added(ts, input, id)) == CompletedTodos(ts)
    ensures Remaining(Added(ts, input, id)) == Remaining(ts) + 1
  {
    var t := Todo(id, Trim(input), false);
    assert Added(ts, input, id) == ts + [t];
    AppendActive(ts, t);
  }

  /** Appending an active record extends the active view and leaves the completed view alone. */
  lemma AppendActive(ts: seq<Todo>, t: Todo)
    requires !t.completed
    ensures ActiveTodos(ts + [t]) == ActiveTodos(ts) + [t]
    ensures CompletedTodos(ts + [t]) == CompletedTodos(ts)
  {
    FilterAppend(ts, [t], IsActive);
    FilterAppend(ts, [t], IsCompleted);
    FilterCons(t, [], IsActive);
    FilterCons(t, [], IsCompleted);
  }

  /** With a fresh id, adding keeps ids unique. */
  lemma AddedKeepsUniqueIds(ts: seq<Todo>, input: string, id: int)
    requires UniqueIds(ts)
    requires forall k :: 0 <= k < |ts| ==> ts[k].id != id
    ensures UniqueIds(Added(ts, input, id))
  {
  }

  // ---------------------------------------------------------------------
  // Toggle
  // ---------------------------------------------------------------------

  /** The position of the first record with the given id, as Array.prototype.find looks it up. */
  function FindIndex(ts: seq<Todo>, id: int): (r: Option<nat>)
    ensures r.None? <==> forall k :: 0 <= k < |ts| ==> ts[k].id != id
    ensures r.Some? ==>
              && r.value < |ts| && ts[r.value].id == id
              && forall k :: 0 <= k < r.value ==> ts[k].id != id
    decreases |ts|
  {
    if ts == [] then None
    else if ts[0].id == id then Some(0)
    else match FindIndex(ts[1..], id)
      case None => None
      case Some(i) => Some(i + 1)
  }

  /**
   The list after toggling id: the same records in the same order, with
   completed flipped on the first record carrying id and on no other.
   */
  function Toggled(ts: seq<Todo>, id: int): (r: seq<Todo>)
    ensures |r| == |ts|
    ensures forall k :: 0 <= k < |ts| ==> r[k].id == ts[k].id && r[k].text == ts[k].text
    ensures forall k :: 0 <= k < |ts| ==>
      (r[k].completed != ts[k].completed <==> FindIndex(ts, id) == Some(k))
  {
    match FindIndex(ts, id)
    case None => ts
    case Some(i) => ts[i := ts[i].(completed := !ts[i].completed)]
  }

  /** The first match depends on the ids alone. */
  lemma FindIndexSameIds(ts: seq<Todo>, us: seq<Todo>, id: int)
    requires |ts| == |us|
    requires forall k :: 0 <= k < |ts| ==> ts[k].id == us[k].id
    ensures FindIndex(ts, id) == FindIndex(us, id)
  {
  }

  /** Toggling an id that no record carries changes nothing. */
  lemma ToggleUnknown(ts: seq<Todo>, id: int)
    requires forall k :: 0 <= k < |ts| ==> ts[k].id != id
    ensures Toggled(ts, id) == ts
  {
  }

  /** Toggling the same id twice restores the original list. */
  lemma ToggleTwice(ts: seq<Todo>, id: int)
    ensures Toggled(Toggled(ts, id), id) == ts
  {
    // the first toggle keeps every id, so the second one finds the same record
    FindIndexSameIds(Toggled(ts, id), ts, id);
  }

  /** With unique ids, toggling changes the record with that id and no other. */
  lemma ToggledUnique(ts: seq<Todo>, id: int)
    requires UniqueIds(ts)
    ensures UniqueIds(Toggled(ts, id))
    ensures forall k :: 0 <= k < |ts| ==>
      Toggled(ts, id)[k] == if ts[k].id == id then ts[k].(completed := !ts[k].completed) else ts[k]
  {
  }

  // ---------------------------------------------------------------------
  // Delete and clear-completed
  // ---------------------------------------------------------------------

  /**
   After deleting id no record carries it, every copy of every record with
   another id remains, and the survivors keep their relative order.
   */
  lemma DeleteRemovesId(ts: seq<Todo>, id: int)
    ensures forall k :: 0 <= k < |WithoutId(ts, id)| ==> WithoutId(ts, id)[k].id != id
    ensures forall x: Todo :: x.id != id ==> multiset(WithoutId(ts, id))[x] == multiset(ts)[x]
    ensures |WithoutId(ts, id)| == |ts| - |Filter(ts, HasId(id))|
    ensures IsSubsequence(WithoutId(ts, id), ts)
  {
  }

  /** Deleting an id that no record carries changes nothing. */
  lemma DeleteUnknown(ts: seq<Todo>, id: int)
    requires forall k :: 0 <= k < |ts| ==> ts[k].id != id
    ensures WithoutId(ts, id) == ts
  {
    FilterKeepsAll(ts, HasOtherId(id));
  }

  /** With unique ids, deleting removes at most one record and keeps ids unique. */
  lemma DeleteUnique(ts: seq<Todo>, id: int)
    requires UniqueIds(ts)
    ensures |WithoutId(ts, id)| == if FindIndex(ts, id).Some? then |ts| - 1 else |ts|
    ensures UniqueIds(WithoutId(ts, id))
  {
    DeleteUniqueLength(ts, id);
    assert DistinctKeys(ts, IdOf);
    FilterKeepsDistinctKeys(ts, HasOtherId(id), IdOf);
    assert DistinctKeys(WithoutId(ts, id), IdOf);
  }

  lemma {:induction false} DeleteUniqueLength(ts: seq<Todo>, id: int)
    requires UniqueIds(ts)
    ensures |WithoutId(ts, id)| == if FindIndex(ts, id).Some? then |ts| - 1 else |ts|
    decreases |ts|
  {
    if ts != [] {
      var rest := ts[1..];
      assert ts == [ts[0]] + rest;
      FilterCons(ts[0], rest, HasOtherId(id));
      assert UniqueIds(rest) by {
        forall j, k | 0 <= j < k < |rest| ensures rest[j].id != rest[k].id {
          assert rest[j] == ts[j + 1] && rest[k] == ts[k + 1];
        }
      }
      if ts[0].id == id {
        forall k | 0 <= k < |rest| ensures rest[k].id != id {
          assert rest[k] == ts[k + 1];
        }
        DeleteUnknown(rest, id);
      } else {
        DeleteUniqueLength(rest, id);
      }
    }
  }

  /** Clearing completed records leaves exactly the active ones; a second clear changes nothing. */
  lemma ClearCompletedProperties(ts: seq<Todo>)
    ensures CompletedTodos(ActiveTodos(ts)) == []
    ensures ActiveTodos(ActiveTodos(ts)) == ActiveTodos(ts)
    ensures Remaining(ActiveTodos(ts)) == Remaining(ts)
    ensures IsSubsequence(ActiveTodos(ts), ts)
  {
    FilterIdempotent(ts, IsActive);
    FilterEmptyIff(ActiveTodos(ts), IsCompleted);
    FilterIsSubsequence(ts, IsActive);
  }

  /** Active and completed records split the list. */
  lemma ActiveCompletedPartition(ts: seq<Todo>)
    ensures multiset(ActiveTodos(ts)) + multiset(CompletedTodos(ts)) == multiset(ts)
    ensures Remaining(ts) + |CompletedTodos(ts)| == |ts|
  {
  }

  // ---------------------------------------------------------------------
  // Views
  // ---------------------------------------------------------------------

  /**
   The records rendered under a filter, in list order: every copy of every
   active record for "active", of every completed record for "completed",
   the whole list for any other name.
   */
  function Visible(ts: seq<Todo>, filter: string): (r: seq<Todo>)
    ensures IsSubsequence(r, ts)
    ensures filter == ActiveFilter ==>
              forall x :: multiset(r)[x] == if !x.completed then multiset(ts)[x] else 0
    ensures filter == CompletedFilter ==>
              forall x :: multiset(r)[x] == if x.completed then multiset(ts)[x] else 0
    ensures filter != ActiveFilter && filter != CompletedFilter ==> r == ts
  {
    SubsequenceReflexive(ts);
    if filter == ActiveFilter then ActiveTodos(ts)
    else if filter == CompletedFilter then CompletedTodos(ts)
    else ts
  }

  /** The active and completed views together are as long as the list. */
  lemma ViewSizes(ts: seq<Todo>)
    ensures |Visible(ts, ActiveFilter)| + |Visible(ts, CompletedFilter)| == |ts|
    ensures Visible(ts, AllFilter) == ts
  {
    ActiveCompletedPartition(ts);
  }

  /** What one render call shows: the rows, whether the empty placeholder replaces them, and the footer count. */
  datatype View = View(rows: seq<Todo>, placeholder: bool, remaining: nat)

  function Render(ts: seq<Todo>, filter: string): (v: View)
    ensures v.rows == Visible(ts, filter)
    ensures v.placeholder <==> v.rows == []
    ensures v.remaining == Remaining(ts)
    ensures v.remaining + |CompletedTodos(ts)| == |ts|
  {
    ActiveCompletedPartition(ts);
    var rows := Visible(ts, filter);
    View(rows, |rows| == 0, Remaining(ts))
  }

  /**
   The placeholder appears exactly when nothing passes the filter: under
   "active" when every record is completed, under "completed" when none is,
   under any other filter when the list is empty.
   */
  lemma RenderPlaceholder(ts: seq<Todo>, filter: string)
    ensures filter == ActiveFilter ==>
      (Render(ts, filter).placeholder <==> forall k :: 0 <= k < |ts| ==> ts[k].completed)
    ensures filter == CompletedFilter ==>
      (Render(ts, filter).placeholder <==> forall k :: 0 <= k < |ts| ==> !ts[k].completed)
    ensures filter != ActiveFilter && filter != CompletedFilter ==>
      (Render(ts, filter).placeholder <==> ts == [])
  {
  }

  /** Changing the filter never changes the footer count. */
  lemma RemainingIgnoresFilter(ts: seq<Todo>, f: string, g: string)
    ensures Render(ts, f).remaining == Render(ts, g).remaining
  {
  }

  // ---------------------------------------------------------------------
  // The controller
  // ---------------------------------------------------------------------

  /**
   The controller state. `persisted` stands for what local storage holds
   (None when nothing is stored): the loaded value at start, then whatever
   the last save wrote; every operation says whether it saves.
   */
  class TodoApp {
    var todos: seq<Todo>
    var currentFilter: string
    ghost var persisted: Option<seq<Todo>>

    /** Start from the stored list (None when storage holds nothing) with the "all" filter. */
    constructor (saved: Option<seq<Todo>>)
      ensures todos == (if saved.Some? then saved.value else [])
      ensures currentFilter == AllFilter
      ensures persisted == saved
    {
      todos := if saved.Some? then saved.value else [];
      currentFilter := AllFilter;
      persisted := saved;
    }

    /** Submit input; id is the clock reading the new record takes. */
    method AddTodo(input: string, id: int)
      modifies this
      ensures todos == Added(old(todos), input, id)
      ensures currentFilter == old(currentFilter)
      ensures persisted == if Trim(input) == [] then old(persisted) else Some(todos)
    {
      var text := Trim(input);
      if text == [] {
        return;
      }
      var todo := Todo(id, text, false);
      todos := todos + [todo];
      persisted := Some(todos);
    }

    method ToggleTodo(id: int)
      modifies this
      ensures todos == Toggled(old(todos), id)
      ensures currentFilter == old(currentFilter)
      ensures persisted == if FindIndex(old(todos), id).Some? then Some(todos) else old(persisted)
    {
      var found := FindIndex(todos, id);
      if found.Some? {
        var i := found.value;
        todos := todos[i := todos[i].(completed := !todos[i].completed)];
        persisted := Some(todos);
      }
    }

    method DeleteTodo(id: int)
      modifies this
      ensures todos == WithoutId(old(todos), id)
      ensures currentFilter == old(currentFilter)
      ensures persisted == Some(todos)
    {
      todos := WithoutId(todos, id);
      persisted := Some(todos);
    }

    method ClearCompleted()
      modifies this
      ensures todos == ActiveTodos(old(todos))
      ensures currentFilter == old(currentFilter)
      ensures persisted == Some(todos)
    {
      todos := ActiveTodos(todos);
      persisted := Some(todos);
    }

    /** Select a filter; the list and storage stay as they are. */
    method SetFilter(filter: string)
      modifies this
      ensures currentFilter == filter
      ensures todos == old(todos)
      ensures persisted == old(persisted)
    {
      currentFilter := filter;
    }

    /** The records the current filter shows. */
    function FilteredTodos(): (r: seq<Todo>)
      reads this
      ensures r == Visible(todos, currentFilter)
      ensures IsSubsequence(r, todos)
      ensures |r| <= |todos|
    {
      Visible(todos, currentFilter)
    }

    /** What render displays for the current state. */
    function CurrentView(): (v: View)
      reads this
      ensures v.rows == FilteredTodos()
      ensures v.placeholder <==> FilteredTodos() == []
      ensures v.remaining == Remaining(todos)
    {
      Render(todos, currentFilter)
    }
  }

  /** What a caller can derive from the contracts alone: adding "buy milk" to an empty list. */
  method ScenarioAdd()
  {
    var app := new TodoApp(None);
    var milk := "buy milk";
    TrimUnchanged(milk);
    var t := Todo(1, milk, false);
    app.AddTodo(milk, 1);
    assert app.todos == [] + [t];
    FilterCons(t, [], IsActive);
    assert app.CurrentView().remaining == 1;
  }

  /** Blank input adds nothing. */
  method ScenarioAddBlank()
  {
    var t := Todo(1, "buy milk", false);
    var app := new TodoApp(Some([t]));
    var blank := "   ";
    TrimEmptyIff(blank);
    app.AddTodo(blank, 2);
    assert app.todos == [t];
  }

  /** The completed filter shows only completed records; the footer still counts the active one. */
  method ScenarioFilter()
  {
    var a, b := Todo(1, "a", false), Todo(2, "b", true);
    var app := new TodoApp(Some([a, b]));
    app.SetFilter(CompletedFilter);
    FilterCons(a, [b], IsCompleted);
    FilterCons(b, [], IsCompleted);
    assert app.FilteredTodos() == [b];
    FilterCons(a, [b], IsActive);
    FilterCons(b, [], IsActive);
    assert app.CurrentView().remaining == 1;
  }

  /** Clearing completed records keeps the rest in order. */
  method ScenarioClear()
  {
    var a, b, c := Todo(1, "a", false), Todo(2, "b", true), Todo(3, "c", true);
    var app := new TodoApp(Some([a, b, c]));
    app.ClearCompleted();
    FilterCons(a, [b, c], IsActive);
    FilterCons(b, [c], IsActive);
    FilterCons(c, [], IsActive);
    assert app.todos == [a];
  }
}
