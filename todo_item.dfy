/**
 * One rendered todo (src/components/todo-item/index.tsx). Each event handler decides, from the
 * item's props, the state of its two refs and the event, which callbacks it calls and in what
 * order, and whether it writes the edit field. `Handle` is that decision as a function; the
 * handlers of `ItemView` perform it step by step and are proved to agree with it.
 */
module ToDoItem {
  import opened Wrappers
  import opened Todos

  /** One call the item makes: `onChangeItem(payload)` or `onDeleteItem(id)`. */
  datatype Emit = ChangeItem(payload: UpdateTodoPayload) | DeleteItem(id: string)

  /** The todo a callback call is about. */
  function EmitId(e: Emit): string {
    match e
    case ChangeItem(p) => p.id
    case DeleteItem(id) => id
  }

  /** The events the item listens to. */
  datatype Event =
    | DoubleClick                      // on the content wrapper
    | FieldKeyDown(key: string)        // in the edit field; `key` is the DOM key name
    | DocumentClick(insideWrap: bool)  // anywhere in the document; whether the wrapper contains the target
    | CheckboxChange(checked: bool)    // the checkbox's new value
    | DeleteClick                      // the "X" button

  /** What one event does: the callback calls in order, and the edit field afterwards. */
  datatype Reaction = Reaction(emitted: seq<Emit>, field: Option<string>)

  /** An input ref that is attached and holds a truthy (non-empty) value. */
  predicate HasText(field: Option<string>) {
    field.Some? && field.value != ""
  }

  /** Whether the event is an Enter press in an edit field holding text: the only way to commit an edit. */
  predicate IsCommit(field: Option<string>, e: Event) {
    e.FieldKeyDown? && e.key == "Enter" && HasText(field)
  }

  /**
   * The handlers of an item with props `item`, whose wrapper ref is attached iff `wrapMounted`
   * and whose edit-field ref is `field` (None while detached), on event `e`.
   */
  function Handle(item: Todo, wrapMounted: bool, field: Option<string>, e: Event): (r: Reaction)
    // every callback call is about this item and no other
    ensures forall i :: 0 <= i < |r.emitted| ==> EmitId(r.emitted[i]) == item.id
    // the edit field is written only when a double-click opens edit mode, and then gets the text
    ensures r.field != field ==> e.DoubleClick? && !item.editable && r.field == Some(item.content)
    ensures r.field.Some? <==> field.Some?
    // edit mode is requested only by a double-click on an item that is not in edit mode, and always by it
    ensures e.DoubleClick? && !item.editable ==> r.emitted == [ChangeItem(EditablePayload(item.id, true))]
    ensures forall i :: 0 <= i < |r.emitted| && r.emitted[i].ChangeItem? && r.emitted[i].payload.editable == Some(true) ==>
      e.DoubleClick? && !item.editable
    // new text is only ever the non-empty text of the edit field, on a commit
    ensures forall i :: 0 <= i < |r.emitted| && r.emitted[i].ChangeItem? && r.emitted[i].payload.content.Some? ==>
      IsCommit(field, e) && r.emitted[i].payload.content == field
    // only the delete button deletes, and it does exactly that
    ensures forall i :: 0 <= i < |r.emitted| && r.emitted[i].DeleteItem? ==> e.DeleteClick?
    ensures e.DeleteClick? ==> r.emitted == [DeleteItem(item.id)]
    // only the checkbox reports a checked value, and it reports exactly its new value
    ensures forall i :: 0 <= i < |r.emitted| && r.emitted[i].ChangeItem? && r.emitted[i].payload.checked.Some? ==>
      e.CheckboxChange? && r.emitted[i].payload.checked == Some(e.checked)
    ensures e.CheckboxChange? ==> r.emitted == [ChangeItem(CheckedPayload(item.id, e.checked))]
    // view mode is requested only by a commit or by a click outside the mounted wrapper
    ensures forall i :: 0 <= i < |r.emitted| && r.emitted[i].ChangeItem? && r.emitted[i].payload.editable == Some(false) ==>
      IsCommit(field, e) || (e.DocumentClick? && wrapMounted && !e.insideWrap)
    // a commit makes two calls, every other event at most one
    ensures |r.emitted| == 2 <==> IsCommit(field, e)
    ensures |r.emitted| <= 2
    // the events that make no call at all
    ensures r.emitted == [] <==>
      || (e.DoubleClick? && item.editable)
      || (e.FieldKeyDown? && !IsCommit(field, e))
      || (e.DocumentClick? && (!wrapMounted || e.insideWrap))
  {
    match e
    case DoubleClick =>
      if !item.editable then
        Reaction([ChangeItem(EditablePayload(item.id, true))], if field.Some? then Some(item.content) else field)
      else
        Reaction([], field)
    case FieldKeyDown(key) =>
      if key == "Enter" && HasText(field) then
        Reaction([ChangeItem(ContentPayload(item.id, field.value)), ChangeItem(EditablePayload(item.id, false))], field)
      else
        Reaction([], field)
    case DocumentClick(insideWrap) =>
      if wrapMounted && !insideWrap then Reaction([ChangeItem(EditablePayload(item.id, false))], field)
      else Reaction([], field)
    case CheckboxChange(checked) =>
      Reaction([ChangeItem(CheckedPayload(item.id, checked))], field)
    case DeleteClick =>
      Reaction([DeleteItem(item.id)], field)
  }

  /**
   * A double-click on an item in view mode asks for edit mode, whatever the state of the field
   * ref, and loads the text into the field when the field is attached.
   */
  lemma DoubleClickOpensEditor(item: Todo, wrapMounted: bool, field: Option<string>)
    requires !item.editable
    ensures Handle(item, wrapMounted, field, DoubleClick).emitted == [ChangeItem(EditablePayload(item.id, true))]
    ensures Handle(item, wrapMounted, field, DoubleClick).field == if field.Some? then Some(item.content) else None
  {
  }

  /** A commit first asks for the new text, then for view mode, in that order. */
  lemma CommitOrder(item: Todo, wrapMounted: bool, field: Option<string>)
    requires HasText(field)
    ensures Handle(item, wrapMounted, field, FieldKeyDown("Enter")).emitted ==
      [ChangeItem(ContentPayload(item.id, field.value)), ChangeItem(EditablePayload(item.id, false))]
  {
  }

  /**
   * A click outside the wrapper asks for view mode whether or not the item is in edit mode, and
   * asks nothing else; a click inside asks nothing.
   */
  lemma ClickOutsideRequestsView(item: Todo, field: Option<string>, insideWrap: bool)
    ensures Handle(item, true, field, DocumentClick(insideWrap)).emitted ==
      if insideWrap then [] else [ChangeItem(EditablePayload(item.id, false))]
  {
  }

  /** What one rendered item shows. */
  datatype ItemRendering = ItemRendering(
    checkboxShown: bool,
    checkboxChecked: bool,
    contentShown: bool,
    fieldShown: bool)

  /** The view flags: the checkbox and text are hidden in edit mode, the edit field outside it. */
  function Render(item: Todo): (v: ItemRendering)
    ensures v.fieldShown <==> !v.checkboxShown
    ensures v.contentShown == v.checkboxShown
    ensures v.fieldShown == item.editable
    ensures v.checkboxChecked == IsTodoCompleted(item)
  {
    ItemRendering(!item.editable, IsTodoCompleted(item), !item.editable, item.editable)
  }

  /** A double-click asks for something exactly when the item shows its checkbox and text. */
  lemma DoubleClickActsOnlyInView(item: Todo, wrapMounted: bool, field: Option<string>)
    ensures Handle(item, wrapMounted, field, DoubleClick).emitted != [] <==> Render(item).checkboxShown
  {
  }

  /**
   * The mounted component. `item` is the props of the latest render; `id` is the React key,
   * which equals the id of every item this instance renders; the document click listener is
   * registered once and so sees only the first render, of which it reads only the id.
   */
  class ItemView {
    const id: string
    var item: Todo
    var wrapMounted: bool      // wrapRef.current is set
    var field: Option<string>  // inputRef.current: None while detached, else the edit field's text

    ghost predicate Valid()
      reads this
    {
      item.id == id
    }

    constructor (item: Todo, wrapMounted: bool, field: Option<string>)
      ensures Valid()
      ensures this.id == item.id && this.item == item
      ensures this.wrapMounted == wrapMounted && this.field == field
    {
      this.id := item.id;
      this.item := item;
      this.wrapMounted := wrapMounted;
      this.field := field;
    }

    /** A re-render with new props for the same key; the DOM field keeps its text. */
    method Rerender(next: Todo)
      requires Valid() && next.id == id
      modifies this`item
      ensures Valid() && item == next
    {
      item := next;
    }

    /** `onDoubleClick`: ask for edit mode, then focus the field and load the current text into it. */
    method OnDoubleClick() returns (emitted: seq<Emit>)
      requires Valid()
      modifies this`field
      ensures Valid()
      ensures Reaction(emitted, field) == Handle(item, wrapMounted, old(field), DoubleClick)
    {
      emitted := [];
      if !item.editable {
        emitted := emitted + [ChangeItem(EditablePayload(item.id, true))];
        if field.Some? {
          field := Some(item.content);
        }
      }
    }

    /** `onChangeContent`: on Enter with text, send the new text, then ask for view mode. */
    method OnChangeContent(key: string) returns (emitted: seq<Emit>)
      requires Valid()
      ensures Reaction(emitted, field) == Handle(item, wrapMounted, field, FieldKeyDown(key))
    {
      emitted := [];
      if key == "Enter" && field.Some? && field.value != "" {
        if field.value != "" {
          emitted := emitted + [ChangeItem(ContentPayload(item.id, field.value))];
        }
        emitted := emitted + [ChangeItem(EditablePayload(item.id, false))];
      }
    }

    /** `onClickOutside`: a click the wrapper does not contain asks for view mode. */
    method OnClickOutside(insideWrap: bool) returns (emitted: seq<Emit>)
      requires Valid()
      ensures Reaction(emitted, field) == Handle(item, wrapMounted, field, DocumentClick(insideWrap))
    {
      emitted := [];
      if wrapMounted && !insideWrap {
        emitted := emitted + [ChangeItem(EditablePayload(id, false))];
      }
    }

    /** The checkbox's `onChange`: report the new checked value. */
    method OnCheckboxChange(checked: bool) returns (emitted: seq<Emit>)
      requires Valid()
      ensures Reaction(emitted, field) == Handle(item, wrapMounted, field, CheckboxChange(checked))
    {
      emitted := [ChangeItem(CheckedPayload(item.id, checked))];
    }

    /** The delete button's `onClick`. */
    method OnDelete() returns (emitted: seq<Emit>)
      requires Valid()
      ensures Reaction(emitted, field) == Handle(item, wrapMounted, field, DeleteClick)
    {
      emitted := [DeleteItem(item.id)];
    }
  }
}
