# Task and tag lists of a React Native to-do app, modelled in Dafny

The app has two screens that own the only logic worth stating. The to-do
screen keeps a list of tasks `{id, title}`. The category screen keeps a list
of tags `{id, name, color}`, including a built-in default tag with id
`"default-tasks"`. Each screen mirrors its list into a key-value store under
one key (`"todos"` or `"categories"`). Every mutation overwrites the whole
stored list first and then replaces the list on display.

The model has five modules:

- `Optional` (`optional.dfy`): an `Option` type for JavaScript values that may be `null` or absent.
- `Records` (`records.dfy`): removal by id, written once for both record types. The id is read through a key function (`CategoryId`, `TodoId`).
- `Text` (`text.dfy`): ECMAScript's `String.prototype.trim`, used to refuse blank input. Also the decimal rendering of a non-negative integer, used to build the random colour string.
- `Categories` (`categories.dfy`), which models `src/screen/CategoryScreen.js`:
  - pure list transforms: the load-time colour migration and rename;
  - the loop method that migrates and raises the `changed` flag;
  - the class `CategoryScreen`, whose fields are the displayed list, the store and the dialog inputs, and whose methods are the screen's handlers.
- `Todos` (`todos.dfy`), which models `src/screen/ToDoScreen.js`:
  - the pure edit transform;
  - the class `ToDoScreen` with the list, the store, the text field and the task being edited.

Each store is a field `store: map<string, seq<Record>>`. A screen touches
only its own key, so the two maps together act as the one shared store.
JSON encoding is left out: a stored value is the list itself.

I/O outcomes and nondeterminism are inputs:

- `readOk`: whether the store read succeeds.
- `writeOk`: whether the store write succeeds. A failed write stores nothing.
- `hues`: one hue in `[0, 360)` per stored record, standing for `Math.floor(Math.random() * 360)`.
- `id`: the string rendering of `Date.now()`.

The category screen has no `try`/`catch`. A failed write rejects the async
handler before its later statements run. The to-do screen catches the error
and logs it. In both cases nothing changes, and the model says so.

The key functions `CategoryId` and `TodoId` and the small predicates `IsDefaultCategory`, `HasColor` (JavaScript truthiness
of `color`), `Settled`, `Blank` and `Rejected` carry no contract. They are
used in the contracts below. `Categories.MigrationScenario` and the
`Todos` methods `BlankTaskScenario`, `AddScenario`, `EditScenario`,
`DeleteTwiceScenario` and `EmptySaveScenario` are client methods. Using the class contracts alone,
they check a first load that repairs a colourless default tag and a second
load that writes nothing, a blank add, an add to an empty store, an edit,
a repeated delete, and a save with nothing being edited over an empty list.

The code does less than such an app is often expected to do; the model follows the code:

- An absent or empty category store is not seeded with a default tag. An empty stored list is loaded as it is.
- Renaming a tag does no validation and raises no not-found error. It always writes, even when the id matches nothing.
- Removing a tag does not protect `"default-tasks"`. The screen only hides the delete button for it.
- Tasks have no `categoryId` field.
- A failed read of the category store is not caught.
- An edit or delete of an absent task id is a silent no-op that still writes the list.

## Model

| member | source | states |
|---|---|---|
| Text.Trim | src/screen/CategoryScreen.js:79 | `trim` gives "" exactly when every character is ECMAScript white space or a line terminator; otherwise the result neither starts nor ends with one |
| Text.DecimalString | src/screen/CategoryScreen.js:55 | the rendering of a hue is a non-empty string of decimal digits with no leading zero, and 0 renders as "0" |
| Text.DecimalStringRoundTrip | src/screen/CategoryScreen.js:55 | reading the decimal rendering back yields the number |
| Text.DecimalStringInjective | src/screen/CategoryScreen.js:55 | distinct numbers give distinct renderings |
| Records.Removed | src/screen/CategoryScreen.js:116 | removal by id (also the task filter at src/screen/ToDoScreen.js:84): a record is in the result exactly when it was in the list and has another id; the list does not grow |
| Records.RemovedConcat | src/screen/CategoryScreen.js:116 | removal distributes over concatenation, so the kept records stay in their order |
| Records.RemovedAbsent | src/screen/ToDoScreen.js:84 | removing an id that no record has returns the list unchanged |
| Records.RemovedIdempotent | src/screen/ToDoScreen.js:84 | removing the same id twice equals removing it once |
| Records.RemovedKeepsOthers | src/screen/CategoryScreen.js:116 | removing one id leaves the records of every other id the same in number and order |
| Categories.HslColor | src/screen/CategoryScreen.js:55 | the random colour `hsl(h, 70%, 50%)` is truthy and never the reference blue |
| Categories.HslColorInjective | src/screen/CategoryScreen.js:55 | distinct hues give distinct colour strings |
| Categories.MigrateCategory | src/screen/CategoryScreen.js:45-64 | one record keeps its id and name; it ends with a truthy colour, blue if it is `"default-tasks"`; it is returned unchanged exactly when it was settled; a colourless non-default record gets the HSL colour of its hue |
| Categories.Migrated | src/screen/CategoryScreen.js:45-64 | a whole-list migration keeps length, order, ids and names, maps each record on its own, and leaves every record settled |
| Categories.MigratedPinsDefault | src/screen/CategoryScreen.js:46-62 | after migration every `"default-tasks"` record has colour `"#1e90ff"`, whether its colour was missing, different or already blue |
| Categories.MigrateSettled | src/screen/CategoryScreen.js:45-64 | a list of settled records is returned unchanged, whatever hues are drawn |
| Categories.MigratedIdempotent | src/screen/CategoryScreen.js:44-66 | migrating a migrated list again returns it unchanged |
| Categories.MigratedUnchangedIff | src/screen/CategoryScreen.js:44-66 | migration returns the list unchanged exactly when every record already had a colour and every default record was already blue, so a write-back happens exactly when some record was not settled |
| Categories.MigrateCategories | src/screen/CategoryScreen.js:44-64 | the loop computes the migration record by record; `changed` is true exactly when the result differs from the stored list |
| Categories.Renamed | src/screen/CategoryScreen.js:98-100 | renaming sets the name of the records whose id is the edited id; length, order, ids, colours and the other names are kept |
| Categories.RenamedAbsent | src/screen/CategoryScreen.js:98-100 | renaming an id that no record has, or with no id selected, returns the list unchanged |
| Categories.RemovedKeepsDefault | src/screen/CategoryScreen.js:116-125 | removing any id other than `"default-tasks"` keeps every default record, in number and order |
| Categories.CategoryScreen.constructor | src/screen/CategoryScreen.js:29-36 | the screen starts with an empty list, empty inputs, no editing id and the first palette colour selected |
| Categories.CategoryScreen.LoadCategories | src/screen/CategoryScreen.js:39-69 | a failed read or no stored list changes nothing (no seeding); a list that migration leaves unchanged is shown without a write; a changed list is written back and then shown; a failed write-back changes nothing; after a successful load every record is settled and the store equals the list |
| Categories.CategoryScreen.SaveCategories | src/screen/CategoryScreen.js:73-76 | the list is stored under `"categories"` and then shown, so the two are equal; other keys are untouched; a failed write changes neither |
| Categories.CategoryScreen.SetCategoryName | src/screen/CategoryScreen.js:194 | typing into the add dialog sets the name input |
| Categories.CategoryScreen.SelectColor | src/screen/CategoryScreen.js:206 | picking a palette colour sets the selected colour |
| Categories.CategoryScreen.AddCategory | src/screen/CategoryScreen.js:78-89 | a blank name changes nothing; otherwise exactly one `{id, name, color}` is appended after the unchanged old list; the store equals the list; the inputs are reset; a failed write changes nothing |
| Categories.CategoryScreen.StartEditCategory | src/screen/CategoryScreen.js:91-95 | opening the edit dialog records the tag's id and name |
| Categories.CategoryScreen.SetEditingName | src/screen/CategoryScreen.js:251 | typing into the edit dialog sets the edited name |
| Categories.CategoryScreen.SaveEditCategory | src/screen/CategoryScreen.js:97-105 | the list becomes the rename of the edited id with the edited name, with no validation; it is stored and the editing state cleared; a failed write changes nothing |
| Categories.CategoryScreen.RemoveCategory | src/screen/CategoryScreen.js:107-123 | the confirmed delete stores and shows the list without that id; a failed write changes nothing |
| Todos.RejectedIff | src/screen/ToDoScreen.js:58 | the input check refuses a text exactly when it is empty or all white space |
| Todos.Edited | src/screen/ToDoScreen.js:115-117 | editing sets the title on the tasks with the edited id; length, order, ids and the other titles are kept |
| Todos.EditedAbsent | src/screen/ToDoScreen.js:115-117 | editing an id that no task has returns the list unchanged |
| Todos.EditedIdempotent | src/screen/ToDoScreen.js:115-117 | repeating the same edit changes nothing more |
| Todos.ToDoScreen.constructor | src/screen/ToDoScreen.js:17-20 | the screen starts with an empty list, an empty text field and nothing being edited |
| Todos.ToDoScreen.LoadTodos | src/screen/ToDoScreen.js:26-33 | a stored list is shown, and then it equals the store; no stored list, or a failed read, leaves the list unchanged |
| Todos.ToDoScreen.ChangeText | src/screen/ToDoScreen.js:141 | typing sets the text field |
| Todos.ToDoScreen.AddToDo | src/screen/ToDoScreen.js:57-71 | empty or blank text changes nothing; otherwise exactly one `{id, title}` is appended after the unchanged old list; the store equals the list; the text field is cleared; a failed write changes nothing |
| Todos.ToDoScreen.DeleteToDo | src/screen/ToDoScreen.js:82-94 | the confirmed delete stores and shows the list without that id; a failed write changes nothing |
| Todos.ToDoScreen.EditToDo | src/screen/ToDoScreen.js:101-107 | starting an edit remembers the task and puts its title in the text field |
| Todos.ToDoScreen.SaveEdit | src/screen/ToDoScreen.js:109-126 | blank text or a failed write changes nothing; with a task being edited, the title goes onto the tasks with its id, the list is stored, and the editing state is cleared; with nothing being edited, a non-empty list is left as it is (the id lookup throws and is caught), while an empty list is written as `[]` and the text field is cleared |

## Left out

- Logging of caught errors (`console.error`).
- AsyncStorage's asynchrony and its JSON text encoding. A stored value is the record sequence itself, and a stored value that does not parse as such a list is not modelled.
- `Math.random()`. It becomes the `hues` parameter, one hue per stored record, used only where a record needs a colour.
- `Date.now().toString()`. It becomes the `id` parameter. The code does not make ids unique, and the model does not claim they are.
- Extra fields a stored record may carry, which the object spreads would copy. Records have exactly the fields the screens create.
- JavaScript values of other types in `id`, `name` or `color`. A colour is absent or a string; truthiness is "present and not empty".
- Alerts and confirmation dialogs. A delete is modelled from the point where the user has confirmed it.
- The 300 ms `setTimeout` before a tag is removed, and the `removingCategoryId` animation state. The stale capture of `categories` by that delayed callback is also left out: operations are taken to run one after another.
- Modal visibility, the cancel handlers of both dialogs (they only hide the dialog and reset its inputs), and keyboard dismissal.
- The success animation and focus timer of the to-do screen, and the Add/Save button dispatch at src/screen/ToDoScreen.js:151.
- All rendering and styling, and the files App.js and src/components/Fallback.js, which hold only layout.
