/**
 * The page (src/ToDoPage.tsx): the view it derives from the list and the selected tab (the
 * visible todos, how many of them are active, the master checkbox), the snapshot it writes to
 * storage, and the `Page` object whose handlers read the create box, dispatch actions and
 * change the route.
 */
module ToDoPage {
  import opened Wrappers
  import opened Todos
  import opened ToDoItem

  /** `TodoStatus | 'ALL'`: the selected tab. */
  datatype Showing = All | Only(status: TodoStatus)

  /** The filter callback: keep todos of the selected status, or everything under `ALL`. */
  predicate Shows(showing: Showing, t: Todo) {
    match showing
    case Only(ACTIVE) => t.status == ACTIVE
    case Only(COMPLETED) => t.status == COMPLETED
    case All => true
  }

  /** `showTodos`: the visible todos, in list order. */
  function ShowTodos(todos: seq<Todo>, showing: Showing): (shown: seq<Todo>)
    ensures |shown| <= |todos|
    ensures forall i :: 0 <= i < |shown| ==> Shows(showing, shown[i]) && shown[i] in todos
  {
    if todos == [] then []
    else if Shows(showing, todos[0]) then [todos[0]] + ShowTodos(todos[1..], showing)
    else ShowTodos(todos[1..], showing)
  }

  /** Under `ALL` the visible list is the whole list, unchanged and in order. */
  lemma {:induction false} ShowAllIsEverything(todos: seq<Todo>)
    ensures ShowTodos(todos, All) == todos
  {
    if todos != [] {
      ShowAllIsEverything(todos[1..]);
      assert todos == [todos[0]] + todos[1..];
    }
  }

  /** A todo is visible iff it is in the list and the selected tab keeps it. */
  lemma {:induction false} ShowTodosMembership(todos: seq<Todo>, showing: Showing, t: Todo)
    ensures t in ShowTodos(todos, showing) <==> t in todos && Shows(showing, t)
  {
    if todos != [] {
      ShowTodosMembership(todos[1..], showing, t);
      assert t in todos <==> t == todos[0] || t in todos[1..];
    }
  }

  /** `a` is `b` with some elements left out, the rest in their original order. */
  predicate IsSubsequence(a: seq<Todo>, b: seq<Todo>)
    decreases |b|
  {
    if a == [] then true
    else if b == [] then false
    else (a[0] == b[0] && IsSubsequence(a[1..], b[1..])) || IsSubsequence(a, b[1..])
  }

  /** Filtering keeps the relative order of the todos it keeps. */
  lemma {:induction false} ShowTodosIsSubsequence(todos: seq<Todo>, showing: Showing)
    ensures IsSubsequence(ShowTodos(todos, showing), todos)
  {
    if todos != [] {
      ShowTodosIsSubsequence(todos[1..], showing);
      var shown := ShowTodos(todos, showing);
      if Shows(showing, todos[0]) {
        assert shown[1..] == ShowTodos(todos[1..], showing);
      }
    }
  }

  /** Filtering a concatenation filters each part. */
  lemma {:induction false} ShowTodosAppend(a: seq<Todo>, b: seq<Todo>, showing: Showing)
    ensures ShowTodos(a + b, showing) == ShowTodos(a, showing) + ShowTodos(b, showing)
  {
    if a == [] {
      assert a + b == b;
    } else {
      assert (a + b)[1..] == a[1..] + b;
      ShowTodosAppend(a[1..], b, showing);
    }
  }

  /** Every todo is visible in exactly one of the two status tabs: the tabs split the list. */
  lemma {:induction false} StatusTabsPartition(todos: seq<Todo>)
    ensures |ShowTodos(todos, Only(ACTIVE))| + |ShowTodos(todos, Only(COMPLETED))| == |todos|
  {
    if todos != [] {
      StatusTabsPartition(todos[1..]);
    }
  }

  /** Filtering twice by the same tab changes nothing. */
  lemma {:induction false} ShowTodosIdempotent(todos: seq<Todo>, showing: Showing)
    ensures ShowTodos(ShowTodos(todos, showing), showing) == ShowTodos(todos, showing)
  {
    if todos != [] {
      ShowTodosIdempotent(todos[1..], showing);
    }
  }

  /** `activeTodos`: the reduce over the visible list that adds one per todo not completed. */
  function ActiveTodos(shown: seq<Todo>): (n: nat)
    ensures n <= |shown|
    ensures n == 0 <==> forall i :: 0 <= i < |shown| ==> IsTodoCompleted(shown[i])
  {
    if shown == [] then 0
    else
      var accum := ActiveTodos(shown[..|shown| - 1]);
      if IsTodoCompleted(shown[|shown| - 1]) then accum else accum + 1
  }

  /** The count equals the number of todos the `ACTIVE` tab would show out of the same list. */
  lemma {:induction false} ActiveTodosCountsActive(shown: seq<Todo>)
    ensures ActiveTodos(shown) == |ShowTodos(shown, Only(ACTIVE))|
  {
    if shown != [] {
      var init, last := shown[..|shown| - 1], shown[|shown| - 1];
      ActiveTodosCountsActive(init);
      assert shown == init + [last];
      ShowTodosAppend(init, [last], Only(ACTIVE));
    }
  }

  /** The toggle-all control in the toolbar: absent, or a checkbox with its checked state. */
  datatype MasterCheckbox = Hidden | Shown(checked: bool)

  /** The toolbar's toggle-all input: a checkbox iff something is visible, checked iff no visible todo is active. */
  function MasterCheckboxOf(todos: seq<Todo>, showing: Showing): (box: MasterCheckbox)
    ensures box.Shown? <==> ShowTodos(todos, showing) != []
    ensures box.Shown? ==> (box.checked <==> forall t :: t in ShowTodos(todos, showing) ==> IsTodoCompleted(t))
  {
    var shown := ShowTodos(todos, showing);
    if |shown| > 0 then Shown(ActiveTodos(shown) == 0) else Hidden
  }

  /** Stated on the full list: checked iff every todo the tab keeps is completed. */
  lemma MasterCheckedIffVisibleCompleted(todos: seq<Todo>, showing: Showing)
    requires MasterCheckboxOf(todos, showing).Shown?
    ensures MasterCheckboxOf(todos, showing).checked <==>
      forall i :: 0 <= i < |todos| && Shows(showing, todos[i]) ==> IsTodoCompleted(todos[i])
  {
    var shown := ShowTodos(todos, showing);
    forall i | 0 <= i < |todos| && Shows(showing, todos[i])
      ensures todos[i] in shown
    {
      ShowTodosMembership(todos, showing, todos[i]);
    }
  }

  /** Under `COMPLETED` the checkbox, when present, is always checked. */
  lemma CompletedTabAlwaysChecked(todos: seq<Todo>)
    ensures MasterCheckboxOf(todos, Only(COMPLETED)) != Shown(false)
  {
  }

  /** Under `ACTIVE` the checkbox, when present, is never checked. */
  lemma ActiveTabNeverChecked(todos: seq<Todo>)
    ensures MasterCheckboxOf(todos, Only(ACTIVE)) != Shown(true)
  {
  }

  /** Under `ALL` the checkbox, when present, is checked iff the whole list is completed. */
  lemma AllTabCheckedIffAllCompleted(todos: seq<Todo>)
    requires todos != []
    ensures MasterCheckboxOf(todos, All) == Shown(forall t :: t in todos ==> IsTodoCompleted(t))
  {
    ShowAllIsEverything(todos);
  }

  /**
   * The action a click on the master checkbox dispatches (`onToggleAllTodo` with the flipped
   * value), or None when the checkbox is not rendered.
   */
  function MasterToggleAction(todos: seq<Todo>, showing: Showing): (a: Option<Action>)
    ensures a.Some? <==> ShowTodos(todos, showing) != []
    ensures a.Some? ==> a.value.ToggleAllTodos?
    ensures a.Some? ==> (a.value.checked <==> exists t :: t in ShowTodos(todos, showing) && !IsTodoCompleted(t))
  {
    match MasterCheckboxOf(todos, showing)
    case Hidden => None
    case Shown(checked) => Some(ToggleAllTodos(!checked))
  }

  /** A todo as written to storage: everything but the `editable` flag. */
  datatype StoredTodo = StoredTodo(id: string, content: string, status: TodoStatus)

  /** The storage effect's value: `todos.map(({editable, ...rest}) => rest)`. */
  function StorageSnapshot(todos: seq<Todo>): (stored: seq<StoredTodo>)
    ensures |stored| == |todos|
    ensures forall i :: 0 <= i < |todos| ==>
      stored[i].id == todos[i].id && stored[i].content == todos[i].content && stored[i].status == todos[i].status
  {
    if todos == [] then []
    else [StoredTodo(todos[0].id, todos[0].content, todos[0].status)] + StorageSnapshot(todos[1..])
  }

  /** The same records apart from the `editable` flags. */
  predicate SameButEditable(a: seq<Todo>, b: seq<Todo>) {
    |a| == |b| &&
    forall i :: 0 <= i < |a| ==> a[i].id == b[i].id && a[i].content == b[i].content && a[i].status == b[i].status
  }

  /** The snapshot does not depend on which todos are in edit mode. */
  lemma SnapshotIgnoresEditable(a: seq<Todo>, b: seq<Todo>)
    requires SameButEditable(a, b)
    ensures StorageSnapshot(a) == StorageSnapshot(b)
  {
  }

  /** The action the page's `onChangeItem` and `onDeleteItem` props turn each item callback call into. */
  function ItemAction(e: Emit): (a: Action)
    ensures e.ChangeItem? ==> a.UpdateTodo? && a.payload == e.payload
    ensures e.DeleteItem? ==> a.DeleteTodo? && a.id == e.id
  {
    match e
    case ChangeItem(p) => UpdateTodo(p)
    case DeleteItem(id) => DeleteTodo(id)
  }

  /** The actions, in order, for a sequence of item callback calls. */
  function ItemActions(emitted: seq<Emit>): (actions: seq<Action>)
    ensures |actions| == |emitted|
    ensures forall i :: 0 <= i < |emitted| ==> actions[i] == ItemAction(emitted[i])
  {
    if emitted == [] then [] else [ItemAction(emitted[0])] + ItemActions(emitted[1..])
  }

  /** Every action an item's event leads the page to dispatch targets that item and no other. */
  lemma ItemEventTargetsOwnTodo(item: Todo, wrapMounted: bool, field: Option<string>, e: Event)
    ensures forall a :: a in ItemActions(Handle(item, wrapMounted, field, e).emitted) ==>
      (a.UpdateTodo? && a.payload.id == item.id) || a == DeleteTodo(item.id)
  {
  }

  /** What `Service.createTodo` settles with. */
  datatype CreateResult =
    | Created(todo: Todo)     // resolved with the created record
    | HttpError(status: int)  // rejected with an HTTP response of this status
    | NoResponse              // rejected without a response

  /** Whether a key press in the create box submits: Enter, with the box mounted and non-empty. */
  predicate Submits(key: string, input: Option<string>) {
    key == "Enter" && input.Some? && input.value != ""
  }

  /**
   * The page's mutable surroundings: the create box (`inputRef.current`, None while detached),
   * the selected tab, the router location and the actions dispatched so far, oldest first.
   */
  class Page {
    var input: Option<string>
    var showing: Showing
    var location: string
    var dispatched: seq<Action>

    constructor (location: string, input: Option<string>)
      ensures this.location == location && this.input == input
      ensures showing == All && dispatched == []
    {
      this.location := location;
      this.input := input;
      showing := All;
      dispatched := [];
    }

    /** The mount effect: load the fetched list, or the empty list when the fetch gave nothing. */
    method OnMount(resp: Option<seq<Todo>>)
      modifies this`dispatched
      ensures dispatched == old(dispatched) + [SetTodos(if resp.Some? then resp.value else [])]
    {
      var todos := if resp.Some? then resp.value else [];
      dispatched := dispatched + [SetTodos(todos)];
    }

    /**
     * `onCreateTodo`: on a submitting key, ask the service to create the box's text; `result` is
     * what the service settles with. Returns the text sent, or None when nothing was sent.
     */
    method OnCreateTodo(key: string, result: CreateResult) returns (request: Option<string>)
      modifies this`input, this`location, this`dispatched
      ensures request.Some? <==> Submits(key, old(input))
      ensures request.Some? ==> request == old(input) && request.value != ""
      // success: exactly one CreateTodo with the service's record, and the box is cleared
      ensures request.Some? && result.Created? ==>
        dispatched == old(dispatched) + [CreateTodo(result.todo)] && input == Some("")
      ensures !(request.Some? && result.Created?) ==> dispatched == old(dispatched) && input == old(input)
      // an authorization failure sends the user to `/`
      ensures location == if request.Some? && result == HttpError(401) then "/" else old(location)
    {
      request := None;
      if key == "Enter" && input.Some? && input.value != "" {
        request := input;
        match result
        case Created(todo) =>
          dispatched := dispatched + [CreateTodo(todo)];
          input := Some("");
        case HttpError(status) =>
          if status == 401 {
            location := "/";
          }
        case NoResponse =>
      }
    }

    /** `onUpdateTodo`, the item's `onChangeItem`. */
    method OnUpdateTodo(payload: UpdateTodoPayload)
      modifies this`dispatched
      ensures dispatched == old(dispatched) + [UpdateTodo(payload)]
    {
      dispatched := dispatched + [UpdateTodo(payload)];
    }

    /** The item's `onDeleteItem`. */
    method OnDeleteItem(id: string)
      modifies this`dispatched
      ensures dispatched == old(dispatched) + [DeleteTodo(id)]
    {
      dispatched := dispatched + [DeleteTodo(id)];
    }

    /** `onToggleAllTodo`, with the master checkbox's new value. */
    method OnToggleAllTodo(checked: bool)
      modifies this`dispatched
      ensures dispatched == old(dispatched) + [ToggleAllTodos(checked)]
    {
      dispatched := dispatched + [ToggleAllTodos(checked)];
    }

    /** `onDeleteAllTodo`, the "Clear all todos" button. */
    method OnDeleteAllTodo()
      modifies this`dispatched
      ensures dispatched == old(dispatched) + [DeleteAllTodos]
    {
      dispatched := dispatched + [DeleteAllTodos];
    }

    /**
     * The calls one item event makes to `onChangeItem` and `onDeleteItem`, in the order the
     * item makes them, each dispatching through the handler it is wired to.
     */
    method OnItemCalls(emitted: seq<Emit>)
      modifies this`dispatched
      ensures dispatched == old(dispatched) + ItemActions(emitted)
    {
      var i := 0;
      while i < |emitted|
        invariant 0 <= i <= |emitted|
        invariant dispatched == old(dispatched) + ItemActions(emitted[..i])
      {
        assert ItemActions(emitted[..i + 1]) == ItemActions(emitted[..i]) + [ItemAction(emitted[i])];
        match emitted[i] {
          case ChangeItem(payload) => OnUpdateTodo(payload);
          case DeleteItem(id) => OnDeleteItem(id);
        }
        i := i + 1;
      }
      assert emitted[..i] == emitted;
    }

    /**
     * A click on the master checkbox rendered for `todos` under the selected tab: the checkbox
     * flips and `onToggleAllTodo` gets its new value; nothing happens when it is not rendered.
     */
    method OnMasterCheckboxClick(todos: seq<Todo>)
      modifies this`dispatched
      ensures MasterToggleAction(todos, showing).None? ==> dispatched == old(dispatched)
      ensures MasterToggleAction(todos, showing).Some? ==>
        dispatched == old(dispatched) + [MasterToggleAction(todos, showing).value]
    {
      var box := MasterCheckboxOf(todos, showing);
      if box.Shown? {
        OnToggleAllTodo(!box.checked);
      }
    }

    /** The All / Active / Completed tab buttons. */
    method SetShowing(showing: Showing)
      modifies this`showing
      ensures this.showing == showing
    {
      this.showing := showing;
    }
  }
}
