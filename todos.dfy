/**
 * The records the two components exchange with the store: a todo, its status, the partial
 * update an item asks for, and the actions the page dispatches. The store's reducer is not part
 * of this model, so an Action is only a value that names what was asked for.
 */
module Todos {
  import opened Wrappers

  datatype TodoStatus = ACTIVE | COMPLETED

  /** A todo as held in memory; `editable` is the UI-only edit-mode flag (an absent flag reads as false). */
  datatype Todo = Todo(id: string, content: string, status: TodoStatus, editable: bool)

  /** The utility the components import to decide completion. */
  predicate IsTodoCompleted(t: Todo) {
    t.status == COMPLETED
  }

  /** `{id, content?, checked?, editable?}`: which fields an item asks the store to change. */
  datatype UpdateTodoPayload = UpdateTodoPayload(
    id: string,
    content: Option<string>,
    checked: Option<bool>,
    editable: Option<bool>)

  /** The payload that only sets the edit-mode flag. */
  function EditablePayload(id: string, editable: bool): UpdateTodoPayload {
    UpdateTodoPayload(id, None, None, Some(editable))
  }

  /** The payload that only replaces the text. */
  function ContentPayload(id: string, content: string): UpdateTodoPayload {
    UpdateTodoPayload(id, Some(content), None, None)
  }

  /** The payload that only sets the completion checkbox. */
  function CheckedPayload(id: string, checked: bool): UpdateTodoPayload {
    UpdateTodoPayload(id, None, Some(checked), None)
  }

  /** The action creators the page dispatches, as opaque values. */
  datatype Action =
    | SetTodos(todos: seq<Todo>)
    | CreateTodo(todo: Todo)
    | DeleteTodo(id: string)
    | UpdateTodo(payload: UpdateTodoPayload)
    | ToggleAllTodos(checked: bool)
    | DeleteAllTodos
}
