/** The category (tag) list of the category screen: the load-time colour
    migration, add, rename and delete, and the write-through to the
    key-value store under the key "categories". */
module Categories {
  import opened Optional
  import opened Text
  import opened Records

  /** The store key the category list is saved under. */
  const StoreKey := "categories"
  /** The id of the built-in default category. */
  const DefaultId := "default-tasks"
  /** The reference blue the default category's colour is pinned to. */
  const DefaultColor := "#1e90ff"
  /** The colours offered by the add dialog; the first is preselected. */
  const ColorOptions: seq<string> := [
    "#1e90ff", "#ff6347", "#32cd32", "#ffa500", "#8a2be2",
    "#ff69b4", "#20b2aa", "#ffd700", "#ff4500", "#00bfff"
  ]

  /** A hue in degrees, as drawn by `Math.floor(Math.random() * 360)`. */
  type Hue = h: nat | h < 360

  /** A stored category; `color` is absent on records written by older versions. */
  datatype Category = Category(id: string, name: string, color: Option<string>)

  /** JavaScript truthiness of the `color` field: present and not "". */
  predicate HasColor(color: Option<string>) {
    color.Some? && color.value != ""
  }

  /** The record the screen treats as the default category (it renders no
      edit or delete button for it). */
  predicate IsDefaultCategory(cat: Category) {
    cat.id == DefaultId
  }

  /** A record migration leaves alone: it has a colour, and that colour is the
      reference blue if the record is the default category. */
  predicate Settled(cat: Category) {
    HasColor(cat.color) && (IsDefaultCategory(cat) ==> cat.color == Some(DefaultColor))
  }

  /** The colour string `hsl(<hue>, 70%, 50%)`. */
  function HslColor(hue: Hue): (r: string)
    ensures r != "" && r != DefaultColor
  {
    "hsl(" + DecimalString(hue) + ", 70%, 50%)"
  }

  /** Different hues give different colour strings. */
  lemma HslColorInjective(a: Hue, b: Hue)
    requires HslColor(a) == HslColor(b)
    ensures a == b
  {
    var r := HslColor(a);
    var da, db := DecimalString(a), DecimalString(b);
    assert r[4..|r| - 11] == da;
    assert HslColor(b)[4..|HslColor(b)| - 11] == db;
    DecimalStringInjective(a, b);
  }

  /** The migration of one record. Only the colour may change; afterwards the
      record is settled; it is returned unchanged exactly when it was settled
      already; a colourless record other than the default one gets the HSL
      colour of its hue. */
  function MigrateCategory(cat: Category, hue: Hue): (r: Category)
    ensures r.id == cat.id && r.name == cat.name
    ensures Settled(r)
    ensures r == cat <==> Settled(cat)
    ensures !HasColor(cat.color) && !IsDefaultCategory(cat) ==> r.color == Some(HslColor(hue))
  {
    if !HasColor(cat.color) then
      if cat.id == DefaultId then cat.(color := Some(DefaultColor))
      else cat.(color := Some(HslColor(hue)))
    else if cat.id == DefaultId && cat.color != Some(DefaultColor) then
      cat.(color := Some(DefaultColor))
    else
      cat
  }

  /** The migration of a whole list, one random hue per record: a record-wise
      map that keeps length, order, ids and names, and leaves every record
      settled. */
  function Migrated(cats: seq<Category>, hues: seq<Hue>): (r: seq<Category>)
    requires |hues| == |cats|
    ensures |r| == |cats|
    ensures forall k :: 0 <= k < |r| ==> r[k] == MigrateCategory(cats[k], hues[k])
    ensures forall k :: 0 <= k < |r| ==> r[k].id == cats[k].id && r[k].name == cats[k].name
    ensures forall k :: 0 <= k < |r| ==> Settled(r[k])
  {
    if cats == [] then []
    else [MigrateCategory(cats[0], hues[0])] + Migrated(cats[1..], hues[1..])
  }

  /** After migration the default category, wherever it occurs, has the
      reference blue. */
  lemma MigratedPinsDefault(cats: seq<Category>, hues: seq<Hue>, k: nat)
    requires |hues| == |cats| && k < |cats|
    requires IsDefaultCategory(cats[k])
    ensures Migrated(cats, hues)[k].color == Some(DefaultColor)
  {
  }

  /** A list whose records are all settled is a fixed point of migration,
      whatever hues are drawn. */
  lemma {:induction false} MigrateSettled(cats: seq<Category>, hues: seq<Hue>)
    requires |hues| == |cats|
    requires forall k :: 0 <= k < |cats| ==> Settled(cats[k])
    ensures Migrated(cats, hues) == cats
  {
    if cats != [] {
      MigrateSettled(cats[1..], hues[1..]);
    }
  }

  /** Migration is idempotent: migrating a migrated list again returns it
      unchanged, whatever hues the second run draws. */
  lemma MigratedIdempotent(cats: seq<Category>, hues: seq<Hue>, hues2: seq<Hue>)
    requires |hues| == |cats| && |hues2| == |cats|
    ensures Migrated(Migrated(cats, hues), hues2) == Migrated(cats, hues)
  {
    MigrateSettled(Migrated(cats, hues), hues2);
  }

  /** Migration returns the list unchanged exactly when every record was
      settled already, so the load handler writes back exactly when some
      record lacked a colour or was a default category whose colour was not
      the reference blue. */
  lemma MigratedUnchangedIff(cats: seq<Category>, hues: seq<Hue>)
    requires |hues| == |cats|
    ensures Migrated(cats, hues) == cats <==> forall k :: 0 <= k < |cats| ==> Settled(cats[k])
  {
    if forall k :: 0 <= k < |cats| ==> Settled(cats[k]) {
      MigrateSettled(cats, hues);
    } else {
      var k :| 0 <= k < |cats| && !Settled(cats[k]);
      assert Migrated(cats, hues)[k] != cats[k];
    }
  }

  /** The loop inside the load handler: maps every record through the
      migration and raises `changed` in each branch that replaces a record.
      The flag is raised exactly when the result differs from the input,
      which happens exactly when some record was not settled. */
  method MigrateCategories(loaded: seq<Category>, hues: seq<Hue>)
      returns (migrated: seq<Category>, changed: bool)
    requires |hues| == |loaded|
    ensures migrated == Migrated(loaded, hues)
    ensures changed <==> migrated != loaded
  {
    migrated, changed := [], false;
    var i := 0;
    while i < |loaded|
      invariant 0 <= i <= |loaded| && |migrated| == i
      invariant forall k :: 0 <= k < i ==> migrated[k] == MigrateCategory(loaded[k], hues[k])
      invariant changed <==> exists k :: 0 <= k < i && !Settled(loaded[k])
    {
      var cat := loaded[i];
      var next := cat;
      if !HasColor(cat.color) {
        if cat.id == DefaultId {
          changed := true;
          next := cat.(color := Some(DefaultColor));
        } else {
          changed := true;
          next := cat.(color := Some(HslColor(hues[i])));
        }
      } else if cat.id == DefaultId && cat.color != Some(DefaultColor) {
        changed := true;
        next := cat.(color := Some(DefaultColor));
      }
      migrated := migrated + [next];
      i := i + 1;
    }
    if changed {
      var k :| 0 <= k < |loaded| && !Settled(loaded[k]);
      assert migrated[k] != loaded[k];
    }
  }

  /** Renaming: every record whose id is `editingId` gets `name`; lengths,
      order, ids, colours and all other records are kept. */
  function Renamed(cats: seq<Category>, editingId: Option<string>, name: string): (r: seq<Category>)
    ensures |r| == |cats|
    ensures forall k :: 0 <= k < |r| ==> r[k].id == cats[k].id && r[k].color == cats[k].color
    ensures forall k :: 0 <= k < |r| ==>
      r[k].name == if editingId == Some(cats[k].id) then name else cats[k].name
  {
    if cats == [] then []
    else
      var cat := cats[0];
      [if editingId == Some(cat.id) then cat.(name := name) else cat]
        + Renamed(cats[1..], editingId, name)
  }

  /** Renaming an id no record has (or with no id selected) changes nothing. */
  lemma {:induction false} RenamedAbsent(cats: seq<Category>, editingId: Option<string>, name: string)
    requires forall k :: 0 <= k < |cats| ==> editingId != Some(cats[k].id)
    ensures Renamed(cats, editingId, name) == cats
  {
    if cats != [] {
      RenamedAbsent(cats[1..], editingId, name);
    }
  }

  /** The id of a record, the key the delete filter compares. */
  function CategoryId(cat: Category): string {
    cat.id
  }

  /** Removing a non-default id keeps every default category record, in
      number and order. */
  lemma RemovedKeepsDefault(cats: seq<Category>, id: string)
    requires id != DefaultId
    ensures WithKey(Removed(cats, CategoryId, id), CategoryId, DefaultId) == WithKey(cats, CategoryId, DefaultId)
    ensures forall c :: c in cats && IsDefaultCategory(c) ==> c in Removed(cats, CategoryId, id)
  {
    RemovedKeepsOthers(cats, CategoryId, id, DefaultId);
  }

  /** The category screen's state: the list on display, the store, and the
      inputs of its add and edit dialogs. */
  class CategoryScreen {
    var categories: seq<Category>
    var store: map<string, seq<Category>>
    var categoryName: string
    var selectedColor: string
    var editingId: Option<string>
    var editingName: string

    /** The screen as first rendered over a given store. */
    constructor (store: map<string, seq<Category>>)
      ensures this.store == store && categories == []
      ensures categoryName == "" && selectedColor == ColorOptions[0]
      ensures editingId == None && editingName == ""
    {
      this.store := store;
      categories := [];
      categoryName := "";
      selectedColor := ColorOptions[0];
      editingId := None;
      editingName := "";
    }

    /** The stored list is the list on display. */
    predicate InSync()
      reads this
    {
      StoreKey in store && store[StoreKey] == categories
    }

    /** The load handler. A failed read, or no stored list, changes nothing
      (there is no default seeding). Otherwise the stored list is migrated;
      when that changed something it is written back first, and a failed
      write aborts the handler before the list is shown. An already migrated
      store is shown without any write. */
    method LoadCategories(readOk: bool, hues: seq<Hue>, writeOk: bool)
      requires StoreKey in store ==> |hues| == |store[StoreKey]|
      modifies this`categories, this`store
      ensures !readOk || StoreKey !in old(store) ==>
        categories == old(categories) && store == old(store)
      ensures readOk && StoreKey in old(store) ==>
        var stored := old(store)[StoreKey];
        var migrated := Migrated(stored, hues);
        if migrated == stored then categories == stored && store == old(store)
        else if writeOk then categories == migrated && store == old(store)[StoreKey := migrated]
        else categories == old(categories) && store == old(store)
      ensures readOk && StoreKey in old(store) && (writeOk || Migrated(old(store)[StoreKey], hues) == old(store)[StoreKey]) ==>
        InSync() && forall k :: 0 <= k < |categories| ==> Settled(categories[k])
    {
      if !readOk || StoreKey !in store {
        return;
      }
      var loaded, changed := MigrateCategories(store[StoreKey], hues);
      if changed {
        if !writeOk {
          return;
        }
        store := store[StoreKey := loaded];
      }
      categories := loaded;
    }

    /** Writes the whole list to the store, then shows it. A failed write
      changes neither. */
    method SaveCategories(newCategories: seq<Category>, writeOk: bool)
      modifies this`categories, this`store
      ensures writeOk ==> store == old(store)[StoreKey := newCategories] && categories == newCategories
      ensures writeOk ==> InSync()
      ensures !writeOk ==> store == old(store) && categories == old(categories)
    {
      if !writeOk {
        return;
      }
      store := store[StoreKey := newCategories];
      categories := newCategories;
    }

    /** Typing into the add dialog's name field. */
    method SetCategoryName(name: string)
      modifies this`categoryName
      ensures categoryName == name
    {
      categoryName := name;
    }

    /** Picking a colour in the add dialog. */
    method SelectColor(color: string)
      modifies this`selectedColor
      ensures selectedColor == color
    {
      selectedColor := color;
    }

    /** The add handler, with the new id (`Date.now()` rendered in decimal)
      as a parameter. A blank name changes nothing. Otherwise the new record
      is appended after all existing ones, the list is saved, and the
      dialog's inputs are reset; a failed write changes nothing. */
    method AddCategory(id: string, writeOk: bool)
      modifies this`categories, this`store, this`categoryName, this`selectedColor
      ensures Blank(old(categoryName)) || !writeOk ==>
        categories == old(categories) && store == old(store)
        && categoryName == old(categoryName) && selectedColor == old(selectedColor)
      ensures !Blank(old(categoryName)) && writeOk ==>
        && categories == old(categories) + [Category(id, old(categoryName), Some(old(selectedColor)))]
        && InSync() && store == old(store)[StoreKey := categories]
        && categoryName == "" && selectedColor == ColorOptions[0]
    {
      if Blank(categoryName) {
        return;
      }
      var newCategory := Category(id, categoryName, Some(selectedColor));
      var updated := categories + [newCategory];
      SaveCategories(updated, writeOk);
      if !writeOk {
        return;
      }
      categoryName := "";
      selectedColor := ColorOptions[0];
    }

    /** Opening the edit dialog on a record. */
    method StartEditCategory(cat: Category)
      modifies this`editingId, this`editingName
      ensures editingId == Some(cat.id) && editingName == cat.name
    {
      editingId := Some(cat.id);
      editingName := cat.name;
    }

    /** Typing into the edit dialog's name field. */
    method SetEditingName(name: string)
      modifies this`editingName
      ensures editingName == name
    {
      editingName := name;
    }

    /** The rename handler: no validation, and an id that matches nothing
      still writes the (unchanged) list. On success the dialog's inputs are
      cleared; a failed write changes nothing. */
    method SaveEditCategory(writeOk: bool)
      modifies this`categories, this`store, this`editingId, this`editingName
      ensures writeOk ==>
        && categories == Renamed(old(categories), old(editingId), old(editingName))
        && InSync() && store == old(store)[StoreKey := categories]
        && editingId == None && editingName == ""
      ensures !writeOk ==>
        categories == old(categories) && store == old(store)
        && editingId == old(editingId) && editingName == old(editingName)
    {
      var updated := Renamed(categories, editingId, editingName);
      SaveCategories(updated, writeOk);
      if !writeOk {
        return;
      }
      editingId := None;
      editingName := "";
    }

    /** The confirmed delete: every record with that id goes, and the list is
      saved. Nothing here protects the default category. */
    method RemoveCategory(id: string, writeOk: bool)
      modifies this`categories, this`store
      ensures writeOk ==>
        categories == Removed(old(categories), CategoryId, id)
        && InSync() && store == old(store)[StoreKey := categories]
      ensures !writeOk ==> categories == old(categories) && store == old(store)
    {
      var updated := Removed(categories, CategoryId, id);
      SaveCategories(updated, writeOk);
    }
  }

  /** A legacy store holding only a colourless default category: the first
      load repairs it and writes it back; a second screen over the repaired
      store shows the same list and writes nothing. */
  method MigrationScenario(hue: Hue)
  {
    var legacy := Category(DefaultId, "Tasks", None);
    var repaired := legacy.(color := Some(DefaultColor));
    assert Migrated([legacy], [hue]) == [repaired];
    var first := new CategoryScreen(map[StoreKey := [legacy]]);
    first.LoadCategories(true, [hue], true);
    assert first.categories == [repaired] && first.store[StoreKey] == [repaired];

    assert Migrated([repaired], [hue]) == [repaired];
    var second := new CategoryScreen(first.store);
    second.LoadCategories(true, [hue], true);
    assert second.categories == [repaired] && second.store == first.store;
  }
}
