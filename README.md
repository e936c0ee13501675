# mana-do todo page: a Dafny model of its view logic and item interactions

This project models the decision logic of the two React components of the mana-do task list:

- the page (`src/ToDoPage.tsx`), which derives from the ordered todo list and the selected tab
  (`ALL`, `ACTIVE`, `COMPLETED`) the visible todos, the count of visible todos that are not
  completed, and the toggle-all checkbox; writes a snapshot of the list without the UI-only
  `editable` flag to storage; and handles the create box, the initial fetch and the toolbar;
- one todo item (`src/components/todo-item/index.tsx`), whose handlers decide which update
  payloads to send, in which order, from the item's `editable` flag, the key pressed, the edit
  field's text and the click target.

Modules:

- `Wrappers` (`wrappers.dfy`): `Option`.
- `Todos` (`todos.dfy`): the todo record, its status, the partial update payload and the store
  actions. `src/models/todo`, `src/store/actions`, `src/store/reducer` and `src/utils` are not
  part of this model; their shapes are taken from how the two components use them, and
  `isTodoCompleted(t)` is modelled as `t.status == COMPLETED`. Actions are plain values: what
  the reducer does with them is not modelled.
- `ToDoItem` (`todo_item.dfy`): `Handle`, the item's handlers as one function from (props, ref
  state, event) to (callback calls in order, edit field afterwards), with its properties as
  postconditions; `Render`, the visibility flags; and the class `ItemView`, whose handler
  methods do the same work step by step and are proved equal to `Handle`.
- `ToDoPage` (`todo_page.dfy`): the filter, the active count, the master checkbox, the storage
  snapshot, the mapping of item callbacks to dispatched actions, and the class `Page` whose
  methods model the handlers that change the create box, the route, the tab and the list of
  dispatched actions.

Ref handling follows the code: `inputRef.current` is `None` while detached, and each handler
keeps the source's null checks. The document click listener is registered once, so it sees
the first render's `item`; it reads only `item.id`, which the React key keeps fixed, and
`ItemView` models that with a constant `id` equal to every rendered item's id.

Two behaviours of the code that are easy to miss:

- The edit field's Enter handler and the outside-click handler do not look at `editable`: an
  outside click sends `{editable: false}` for every mounted item, in edit mode or not.
- A failed initial fetch dispatches nothing; the `|| []` fallback applies only when the fetch
  resolves to `null` or `undefined` (a fetch that resolves to `[]` dispatches `setTodos([])`
  directly).
- A click on an item's delete button lies outside every other mounted item's wrapper, so each
  of those items sends `{editable: false, id}` for its own todo. Whether the deleted item's own
  document listener still runs depends on React's commit timing and on the reducer; neither is
  modelled.

## Model

| member | source | states |
|---|---|---|
| ToDoPage.ShowTodos | src/ToDoPage.tsx:69-78 | the visible list is no longer than the list, and every visible todo is in the list and kept by the selected tab |
| ToDoPage.ShowAllIsEverything | src/ToDoPage.tsx:69-78 | under `ALL` the visible list is the whole list, same elements in the same order |
| ToDoPage.ShowTodosMembership | src/ToDoPage.tsx:69-78 | a todo is visible iff it is in the list and its status matches the tab (any status under `ALL`) |
| ToDoPage.ShowTodosIsSubsequence | src/ToDoPage.tsx:69-78 | the visible list is an order-preserving subsequence of the list |
| ToDoPage.ShowTodosAppend | src/ToDoPage.tsx:69-78 | filtering a concatenation is the concatenation of the filtered parts |
| ToDoPage.StatusTabsPartition | src/ToDoPage.tsx:69-74 | the `ACTIVE` and `COMPLETED` tabs together show exactly as many todos as the list holds |
| ToDoPage.ShowTodosIdempotent | src/ToDoPage.tsx:69-78 | filtering the visible list again by the same tab changes nothing |
| ToDoPage.ActiveTodos | src/ToDoPage.tsx:81-83 | the count lies between 0 and the number of visible todos, and is 0 iff every visible todo is completed |
| ToDoPage.ActiveTodosCountsActive | src/ToDoPage.tsx:81-83 | the count equals the number of todos the `ACTIVE` filter keeps from the visible list |
| ToDoPage.MasterCheckboxOf | src/ToDoPage.tsx:110-116 | the checkbox is rendered iff the visible list is non-empty, and is then checked iff every visible todo is completed |
| ToDoPage.MasterCheckedIffVisibleCompleted | src/ToDoPage.tsx:110-113 | a rendered checkbox is checked iff every todo of the full list that the tab keeps is completed |
| ToDoPage.CompletedTabAlwaysChecked | src/ToDoPage.tsx:80-113 | under `COMPLETED` a rendered checkbox is always checked |
| ToDoPage.ActiveTabNeverChecked | src/ToDoPage.tsx:81-113 | under `ACTIVE` a rendered checkbox is never checked |
| ToDoPage.AllTabCheckedIffAllCompleted | src/ToDoPage.tsx:69-113 | under `ALL`, for a non-empty list, the checkbox is rendered and checked iff every todo is completed |
| ToDoPage.MasterToggleAction | src/ToDoPage.tsx:110-116 | clicking the checkbox is possible iff something is visible, and dispatches `toggleAllTodos(true)` iff some visible todo is not completed |
| ToDoPage.StorageSnapshot | src/ToDoPage.tsx:37-39 | the stored list has the same length and order as the list, each record keeps id, content and status, and the record type has no `editable` field |
| ToDoPage.SnapshotIgnoresEditable | src/ToDoPage.tsx:38 | two lists that differ only in their `editable` flags store the same snapshot |
| ToDoPage.ItemAction | src/ToDoPage.tsx:102-103 | an item's `onChangeItem(p)` dispatches `updateTodo(p)` and its `onDeleteItem(id)` dispatches `deleteTodo(id)` |
| ToDoPage.ItemActions | src/ToDoPage.tsx:97-106 | a run of item callback calls dispatches one action per call, in the same order |
| ToDoPage.ItemEventTargetsOwnTodo | src/ToDoPage.tsx:99-104 | every action any event of an item leads to is an update with that item's id or the deletion of that item |
| ToDoPage.Page.constructor | src/ToDoPage.tsx:25-27 | the page starts on the `ALL` tab with nothing dispatched |
| ToDoPage.Page.OnMount | src/ToDoPage.tsx:29-35 | the mount effect dispatches exactly one `setTodos`, with the fetched list, or the empty list when the fetch gave `null`/`undefined` |
| ToDoPage.Page.OnCreateTodo | src/ToDoPage.tsx:42-55 | a create request is sent iff the key is Enter and the mounted box is non-empty, and carries the box's text; on success exactly one `createTodo` with the service's record is dispatched and the box is cleared; on a 401 the location becomes `/`; otherwise nothing changes |
| ToDoPage.Page.OnUpdateTodo | src/ToDoPage.tsx:57-59 | appends exactly `updateTodo(payload)` to the dispatched actions |
| ToDoPage.Page.OnDeleteItem | src/ToDoPage.tsx:103 | appends exactly `deleteTodo(id)` to the dispatched actions |
| ToDoPage.Page.OnToggleAllTodo | src/ToDoPage.tsx:61-63 | appends exactly `toggleAllTodos(checked)` to the dispatched actions |
| ToDoPage.Page.OnItemCalls | src/ToDoPage.tsx:99-104 | an item's callback calls, delivered in order through `onUpdateTodo` and the `onDeleteItem` closure, append exactly `ItemActions` of those calls to the dispatched actions |
| ToDoPage.Page.OnMasterCheckboxClick | src/ToDoPage.tsx:110-114 | a click on the master checkbox dispatches `toggleAllTodos` with the flipped checked value, exactly the action `MasterToggleAction` describes, and nothing when the checkbox is not rendered |
| ToDoPage.Page.OnDeleteAllTodo | src/ToDoPage.tsx:65-67 | appends exactly `deleteAllTodos()` to the dispatched actions |
| ToDoPage.Page.SetShowing | src/ToDoPage.tsx:118-126 | a tab button selects its tab and changes nothing else |
| ToDoItem.Handle | src/components/todo-item/index.tsx:13-70 | every payload carries the item's own id; the edit field is written only when a double-click opens edit mode, and then holds the item's text; edit mode is requested by exactly `{editable: true, id}` on a double-click outside edit mode and by nothing else, and view mode only by Enter with text or a click outside the mounted wrapper; new text is only the field's non-empty text on Enter; a checkbox change sends exactly `{checked: b, id}` for its new value `b`, and no other event sends a checked value; the delete button calls exactly `onDeleteItem(item.id)`, and no other event deletes; Enter with text makes two calls and every other event at most one; and exactly which events make no call |
| ToDoItem.DoubleClickOpensEditor | src/components/todo-item/index.tsx:41-49 | a double-click on an item not in edit mode sends exactly `{editable: true, id}` whatever the field ref holds, and loads the item's text into the field when it is attached |
| ToDoItem.CommitOrder | src/components/todo-item/index.tsx:28-39 | Enter with a non-empty field sends `{content: text, id}` and then `{editable: false, id}`, in that order |
| ToDoItem.ClickOutsideRequestsView | src/components/todo-item/index.tsx:17-21 | with the wrapper mounted, a click outside it sends exactly `{editable: false, id}` and a click inside sends nothing |
| ToDoItem.Render | src/components/todo-item/index.tsx:54-66 | the checkbox and the text are shown iff the item is not in edit mode, the edit field iff it is, and the checkbox is checked iff the item is completed |
| ToDoItem.DoubleClickActsOnlyInView | src/components/todo-item/index.tsx:41-60 | a double-click sends something exactly when the checkbox and text are on screen |
| ToDoItem.ItemView.constructor | src/components/todo-item/index.tsx:13-15 | a mounted item remembers its key id, its props and the state of its two refs |
| ToDoItem.ItemView.Rerender | src/components/todo-item/index.tsx:13 | a re-render under the same key replaces the props and leaves the edit field's text alone |
| ToDoItem.ItemView.OnDoubleClick | src/components/todo-item/index.tsx:41-49 | the handler's calls and its write to the edit field are those `Handle` gives for a double-click |
| ToDoItem.ItemView.OnChangeContent | src/components/todo-item/index.tsx:28-39 | the handler's calls, in order, are those `Handle` gives for the key, and the field is untouched |
| ToDoItem.ItemView.OnClickOutside | src/components/todo-item/index.tsx:17-21 | the listener's calls, made with the key id, are those `Handle` gives for the click |
| ToDoItem.ItemView.OnCheckboxChange | src/components/todo-item/index.tsx:58 | the handler's single call is the one `Handle` gives for a checkbox change: exactly `{checked: b, id}` for the new value `b` |
| ToDoItem.ItemView.OnDelete | src/components/todo-item/index.tsx:70 | the handler's single call is the one `Handle` gives for the delete button: exactly `onDeleteItem(item.id)` |

## Left out

- The reducer (`src/store/reducer`) is not part of this model: actions are opaque values, and nothing is claimed about how they change the list.
- `Service.getTodos` and `Service.createTodo` are network calls: their outcomes are parameters (`Option<seq<Todo>>` for the fetch's resolved value, `CreateResult` for the create). A rejected fetch is not modelled; it dispatches nothing.
- The write to local storage (`storageSet`) is I/O: only the stored value, `StorageSnapshot`, is modelled.
- React's hook scheduling (`useReducer`, `useState`, `useEffect`), attaching and detaching the document click listener, `focus()`, `console.log`, CSS classes and JSX layout are framework plumbing.
- Typing into the create box or the edit field is browser behaviour: the text in each is a field of the model that the user's typing would set.
- `history.push('/')` is modelled as setting `Page.location`; the router itself is not modelled.
- ToDoItem.ItemView.OnChangeContent: the `try`/`catch` around the first `onChangeItem` call is not modelled, because the callback only dispatches and does not throw.
- ToDoPage.Page.OnCreateTodo: a rejection without an HTTP response makes the source's `catch` throw on `e.response.status`; the model records only its effect, that nothing changes.
- ToDoPage.Page.OnCreateTodo: two Enter presses during one pending create interleave asynchronously; each call is modelled as running to completion.
- `Todo.editable` is optional in the source; an absent flag behaves as `false` everywhere it is read and is modelled as `false`.
