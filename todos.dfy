/** The task list of the to-do screen: load, add, edit and delete, each
    mutation overwriting the whole list under the store key "todos" before
    the list on display is replaced. */
module Todos {
  import opened Optional
  import opened Text
  import opened Records

  /** The store key the task list is saved under. */
  const StoreKey := "todos"

  /** A task as the screen creates and stores it. */
  datatype Todo = Todo(id: string, title: string)

  /** The screen's input check: `!todo || todo.trim() === ""`. */
  predicate Rejected(text: string) {
    text == "" || Blank(text)
  }

  /** The input check accepts exactly the texts with a non-white-space character. */
  lemma RejectedIff(text: string)
    ensures Rejected(text) <==> forall k :: 0 <= k < |text| ==> IsWhiteSpace(text[k])
  {
  }

  /** Editing: every task whose id is `id` gets `title`; length, order, ids
      and all other tasks are kept. */
  function Edited(todos: seq<Todo>, id: string, title: string): (r: seq<Todo>)
    ensures |r| == |todos|
    ensures forall k :: 0 <= k < |r| ==> r[k].id == todos[k].id
    ensures forall k :: 0 <= k < |r| ==>
      r[k].title == if todos[k].id == id then title else todos[k].title
  {
    if todos == [] then []
    else
      var t := todos[0];
      [if t.id == id then t.(title := title) else t] + Edited(todos[1..], id, title)
  }

  /** Editing an id no task has changes nothing. */
  lemma {:induction false} EditedAbsent(todos: seq<Todo>, id: string, title: string)
    requires forall k :: 0 <= k < |todos| ==> todos[k].id != id
    ensures Edited(todos, id, title) == todos
  {
    if todos != [] {
      EditedAbsent(todos[1..], id, title);
    }
  }

  /** Editing twice with the same title is editing once. */
  lemma {:induction false} EditedIdempotent(todos: seq<Todo>, id: string, title: string)
    ensures Edited(Edited(todos, id, title), id, title) == Edited(todos, id, title)
  {
    if todos != [] {
      EditedIdempotent(todos[1..], id, title);
    }
  }

  /** The id of a task, the key the delete filter compares. */
  function TodoId(t: Todo): string {
    t.id
  }

  /** The to-do screen's state: the list on display, the store, the text
      field, and the task being edited, if any. */
  class ToDoScreen {
    var todoList: seq<Todo>
    var store: map<string, seq<Todo>>
    var todo: string
    var editedTodo: Option<Todo>

    /** The screen as first rendered over a given store. */
    constructor (store: map<string, seq<Todo>>)
      ensures this.store == store && todoList == [] && todo == "" && editedTodo == None
    {
      this.store := store;
      todoList := [];
      todo := "";
      editedTodo := None;
    }

    /** The stored list is the list on display. */
    predicate InSync()
      reads this
    {
      StoreKey in store && store[StoreKey] == todoList
    }

    /** The load handler: shows the stored list when there is one. No stored
      list leaves the (initially empty) list as it is, and so does a read or
      parse failure, which is caught. */
    method LoadTodos(readOk: bool)
      modifies this`todoList
      ensures readOk && StoreKey in store ==> todoList == store[StoreKey] && InSync()
      ensures !readOk || StoreKey !in store ==> todoList == old(todoList)
    {
      if readOk && StoreKey in store {
        todoList := store[StoreKey];
      }
    }

    /** Typing into the text field. */
    method ChangeText(text: string)
      modifies this`todo
      ensures todo == text
    {
      todo := text;
    }

    /** The add handler, with the new id (`Date.now()` rendered in decimal) as
      a parameter. Rejected text changes nothing. Otherwise the new task is
      appended after all existing ones, the list is written, shown, and the
      text field cleared; a failed write is caught and changes nothing. */
    method AddToDo(id: string, writeOk: bool)
      modifies this`todoList, this`store, this`todo
      ensures Rejected(old(todo)) || !writeOk ==>
        todoList == old(todoList) && store == old(store) && todo == old(todo)
      ensures !Rejected(old(todo)) && writeOk ==>
        && todoList == old(todoList) + [Todo(id, old(todo))]
        && InSync() && store == old(store)[StoreKey := todoList]
        && todo == ""
    {
      if todo == "" || Blank(todo) {
        return;
      }
      var newTodo := Todo(id, todo);
      var updatedTodos := todoList + [newTodo];
      if !writeOk {
        return;
      }
      store := store[StoreKey := updatedTodos];
      todoList := updatedTodos;
      todo := "";
    }

    /** The confirmed delete: every task with that id goes; the list is
      written, then shown. A failed write is caught and changes nothing. */
    method DeleteToDo(id: string, writeOk: bool)
      modifies this`todoList, this`store
      ensures writeOk ==>
        todoList == Removed(old(todoList), TodoId, id)
        && InSync() && store == old(store)[StoreKey := todoList]
      ensures !writeOk ==> todoList == old(todoList) && store == old(store)
    {
      var filteredTodos := Removed(todoList, TodoId, id);
      if !writeOk {
        return;
      }
      store := store[StoreKey := filteredTodos];
      todoList := filteredTodos;
    }

    /** Starting to edit a task: remembers it and puts its title in the text
      field. */
    method EditToDo(item: Todo)
      modifies this`editedTodo, this`todo
      ensures editedTodo == Some(item) && todo == item.title
    {
      editedTodo := Some(item);
      todo := item.title;
    }

    /** The save-edit handler. Rejected text changes nothing. With no task
      being edited, the edit callback reads the id of nothing and throws
      inside the try block on the first task, so a non-empty list is left
      as it is; an empty list never runs the callback, so the empty list is
      written and the text field cleared. Otherwise the title goes onto
      every task with the edited task's id, the list is written, shown, and
      the editing state cleared; a failed write is caught and changes
      nothing. */
    method SaveEdit(writeOk: bool)
      modifies this`todoList, this`store, this`todo, this`editedTodo
      ensures Rejected(old(todo)) || (old(editedTodo).None? && old(todoList) != []) || !writeOk ==>
        todoList == old(todoList) && store == old(store)
        && todo == old(todo) && editedTodo == old(editedTodo)
      ensures !Rejected(old(todo)) && old(editedTodo).Some? && writeOk ==>
        && todoList == Edited(old(todoList), old(editedTodo).value.id, old(todo))
        && InSync() && store == old(store)[StoreKey := todoList]
        && todo == "" && editedTodo == None
      ensures !Rejected(old(todo)) && old(editedTodo).None? && old(todoList) == [] && writeOk ==>
        && todoList == [] && InSync() && store == old(store)[StoreKey := []]
        && todo == "" && editedTodo == None
    {
      if todo == "" || Blank(todo) {
        return;
      }
      if editedTodo.None? && todoList != [] {
        return;
      }
      var updatedTodos := if editedTodo.None? then [] else Edited(todoList, editedTodo.value.id, todo);
      if !writeOk {
        return;
      }
      store := store[StoreKey := updatedTodos];
      todoList := updatedTodos;
      todo := "";
      editedTodo := None;
    }
  }

  /** Blank text is refused: the list and the store stay as they were. */
  method BlankTaskScenario(screen: ToDoScreen)
    modifies screen
  {
    var before, stored := screen.todoList, screen.store;
    RejectedIff(" \t ");
    screen.ChangeText(" \t ");
    screen.AddToDo("1", true);
    assert screen.todoList == before && screen.store == stored;
  }

  /** Adding to an empty store: the task is stored and shown. */
  method AddScenario(id: string, title: string)
    requires !Rejected(title)
  {
    var screen := new ToDoScreen(map[]);
    screen.LoadTodos(true);
    assert screen.todoList == [];
    screen.ChangeText(title);
    screen.AddToDo(id, true);
    assert screen.todoList == [Todo(id, title)] && screen.InSync();
  }

  /** Editing changes only the title of the edited task. */
  method EditScenario(screen: ToDoScreen, item: Todo, title: string)
    requires screen.todoList == [item] && !Rejected(title)
    modifies screen
  {
    screen.EditToDo(item);
    screen.ChangeText(title);
    screen.SaveEdit(true);
    assert screen.todoList == [Todo(item.id, title)];
  }

  /** A repeated delete changes nothing more. */
  method DeleteTwiceScenario(screen: ToDoScreen, id: string)
    modifies screen
  {
    var before := screen.todoList;
    screen.DeleteToDo(id, true);
    var once := screen.todoList;
    screen.DeleteToDo(id, true);
    RemovedIdempotent(before, TodoId, id);
    assert screen.todoList == once && screen.InSync();
  }

  /** Saving with nothing being edited and an empty list: nothing throws, so
      the empty list is written and the text field is cleared. */
  method EmptySaveScenario(title: string)
    requires !Rejected(title)
  {
    var screen := new ToDoScreen(map[]);
    screen.ChangeText(title);
    screen.SaveEdit(true);
    assert screen.todo == "" && screen.store == map[StoreKey := []];
  }
}
