/** backend/api/categories.php: create, rename and delete rows of `categories`.
    Names are unique (a clash answers 409) and a category that devices still
    reference cannot be deleted (409). */
module CategoriesApi {
  import opened Common
  import opened Store

  /** The JSON body of a POST or PUT. */
  datatype CategoryInput = CategoryInput(id: Option<int>, name: Option<string>)

  /** A row of the listing: `SELECT * FROM categories`. */
  datatype CategoryRow = CategoryRow(id: int, name: string)

  /** getCategories: one row per category. */
  function ListCategories(categories: map<int, string>): (rows: set<CategoryRow>)
    ensures forall id :: id in categories ==> CategoryRow(id, categories[id]) in rows
    ensures forall row :: row in rows ==> row.id in categories && row.name == categories[row.id]
  {
    set id | id in categories :: CategoryRow(id, categories[id])
  }

  /** Under the unique key on names, a name is listed at most once, and the
      listing has exactly as many rows as there are categories. */
  lemma ListedNamesUnique(categories: map<int, string>)
    requires UniqueNames(categories)
    ensures forall a, b :: a in ListCategories(categories) && b in ListCategories(categories) && a.name == b.name ==> a == b
    ensures |ListCategories(categories)| == |categories|
  {
    var rows := ListCategories(categories);
    var ids := set row | row in rows :: row.id;
    assert ids == categories.Keys;
    RowsById(rows, ids);
  }

  /** Rows with pairwise different ids are as many as their ids. */
  lemma {:induction false} RowsById(rows: set<CategoryRow>, ids: set<int>)
    requires ids == set row | row in rows :: row.id
    requires forall a, b :: a in rows && b in rows && a.id == b.id ==> a == b
    ensures |rows| == |ids|
    decreases |rows|
  {
    if rows != {} {
      var row :| row in rows;
      var rest := rows - {row};
      RowsById(rest, ids - {row.id});
    }
  }

  /** createCategory: `INSERT INTO categories (name) VALUES (:name)` with a fresh
      auto-increment id. */
  function CreateCategoryOutcome(t: Tables, php: Runtime, input: CategoryInput, exec: Exec): (r: Outcome)
    ensures Integrity(t) ==> Integrity(r.tables)
    ensures Blank(input.name) ==> r == Outcome(StatusBadRequest, t)
    ensures r.code != StatusCreated ==> r.tables == t
    ensures r.code == StatusConflict <==>
      !Blank(input.name) && exec != Throws && php.clean(input.name.value) in t.categories.Values
    ensures r.code == StatusCreated <==>
      !Blank(input.name) && exec.Runs? && php.clean(input.name.value) !in t.categories.Values
    // a success adds exactly one row, under the next id, holding the cleaned name
    ensures r.code == StatusCreated ==>
      && r.tables.categories.Keys == t.categories.Keys + {t.nextCategoryId}
      && r.tables.categories[t.nextCategoryId] == php.clean(input.name.value)
      && (forall id :: id in t.categories && id != t.nextCategoryId ==> r.tables.categories[id] == t.categories[id])
      && r.tables == t.(categories := r.tables.categories, nextCategoryId := t.nextCategoryId + 1)
  {
    if Blank(input.name) then
      Outcome(StatusBadRequest, t)
    else
      var name := php.clean(input.name.value);
      if exec == Throws then Outcome(StatusServerError, t)
      else if name in t.categories.Values then Outcome(StatusConflict, t)
      else if exec == ReturnsFalse then Outcome(StatusUnavailable, t)
      else
        Outcome(StatusCreated, t.(categories := t.categories[t.nextCategoryId := name],
                                  nextCategoryId := t.nextCategoryId + 1))
  }

  /** updateCategory: `UPDATE categories SET name = :name WHERE id = :id`; an id
      that matches no row changes nothing and still answers 200. */
  function UpdateCategoryOutcome(t: Tables, php: Runtime, input: CategoryInput, exec: Exec): (r: Outcome)
    ensures Integrity(t) ==> Integrity(r.tables)
    ensures BlankInt(input.id) || Blank(input.name) ==> r == Outcome(StatusBadRequest, t)
    ensures r.code != StatusOk ==> r.tables == t
    ensures r.code == StatusConflict <==>
      && !BlankInt(input.id) && !Blank(input.name) && exec != Throws
      && input.id.value in t.categories
      && NameHeldByOther(t.categories, php.clean(input.name.value), input.id.value)
    // a complete rename whose statement runs succeeds unless the name is taken
    ensures r.code == StatusOk <==>
      && !BlankInt(input.id) && !Blank(input.name) && exec.Runs?
      && !(input.id.value in t.categories && NameHeldByOther(t.categories, php.clean(input.name.value), input.id.value))
    // only the named row can change, and only its name
    ensures r.tables == t.(categories := r.tables.categories)
    ensures r.tables.categories.Keys == t.categories.Keys
    ensures forall id :: id in t.categories && (input.id.None? || id != input.id.value) ==>
      r.tables.categories[id] == t.categories[id]
    ensures r.code == StatusOk && input.id.value in t.categories ==>
      r.tables.categories[input.id.value] == php.clean(input.name.value)
  {
    if BlankInt(input.id) || Blank(input.name) then
      Outcome(StatusBadRequest, t)
    else
      var id, name := input.id.value, php.clean(input.name.value);
      if exec == Throws then Outcome(StatusServerError, t)
      else if id in t.categories && NameHeldByOther(t.categories, name, id) then Outcome(StatusConflict, t)
      else if exec == ReturnsFalse then Outcome(StatusUnavailable, t)
      else if id in t.categories then Outcome(StatusOk, t.(categories := t.categories[id := name]))
      else Outcome(StatusOk, t)
  }

  /** deleteCategory: count the devices in the category (statement `plan.first`),
      refuse with 409 if there are any, else delete (statement `plan.second`).
      A count whose `execute()` returns false fetches nothing and skips the guard;
      the foreign key of `devices` then still refuses the delete. */
  function DeleteCategoryOutcome(t: Tables, id: int, plan: Plan): (r: Outcome)
    ensures Integrity(t) ==> Integrity(r.tables)
    ensures plan.first == Runs && CountInCategory(t.devices, id) > 0 ==> r == Outcome(StatusConflict, t)
    ensures r.code != StatusOk ==> r.tables == t
    ensures r.tables == t.(categories := r.tables.categories)
    // a success removes exactly that row and no other
    ensures r.code == StatusOk ==> r.tables.categories == t.categories - {id}
    ensures r.code == StatusOk <==>
      plan.first != Throws && plan.second.Runs? && CountInCategory(t.devices, id) == 0
    // a row that some device references is never removed
    ensures CountInCategory(t.devices, id) > 0 ==> r.tables == t
  {
    if plan.first == Throws then Outcome(StatusServerError, t)
    else if plan.first == Runs && CountInCategory(t.devices, id) > 0 then Outcome(StatusConflict, t)
    else if plan.second == Throws || CountInCategory(t.devices, id) > 0 then Outcome(StatusServerError, t)
    else if plan.second == ReturnsFalse then Outcome(StatusUnavailable, t)
    else Outcome(StatusOk, t.(categories := t.categories - {id}))
  }

  /** getCategories as a read: 500 when the query throws; otherwise 200 with the
      listing, which is empty when `execute()` returns false (nothing to fetch). */
  method GetCategories(db: Database, exec: Exec) returns (code: int, rows: set<CategoryRow>)
    ensures exec == Throws ==> code == StatusServerError && rows == {}
    ensures exec == ReturnsFalse ==> code == StatusOk && rows == {}
    ensures exec.Runs? ==> code == StatusOk && rows == ListCategories(db.categories)
  {
    if exec == Throws {
      code, rows := StatusServerError, {};
    } else if exec == ReturnsFalse {
      code, rows := StatusOk, {};
    } else {
      code, rows := StatusOk, ListCategories(db.categories);
    }
  }

  method CreateCategory(db: Database, php: Runtime, input: CategoryInput, exec: Exec) returns (code: int)
    requires db.Valid()
    modifies db
    ensures db.Valid()
    ensures Outcome(code, db.Snapshot()) == CreateCategoryOutcome(old(db.Snapshot()), php, input, exec)
  {
    ghost var before := db.Snapshot();
    if Blank(input.name) {
      code := StatusBadRequest;
    } else {
      var name := php.clean(input.name.value);
      if exec == Throws {
        code := StatusServerError;
      } else if name in db.categories.Values {
        code := StatusConflict;
      } else if exec == ReturnsFalse {
        code := StatusUnavailable;
      } else {
        db.categories := db.categories[db.nextCategoryId := name];
        db.nextCategoryId := db.nextCategoryId + 1;
        code := StatusCreated;
      }
    }
    ghost var expected := CreateCategoryOutcome(before, php, input, exec);
    assert Outcome(code, db.Snapshot()) == expected;
    assert Integrity(expected.tables);
  }

  method UpdateCategory(db: Database, php: Runtime, input: CategoryInput, exec: Exec) returns (code: int)
    requires db.Valid()
    modifies db
    ensures db.Valid()
    ensures Outcome(code, db.Snapshot()) == UpdateCategoryOutcome(old(db.Snapshot()), php, input, exec)
  {
    ghost var before := db.Snapshot();
    if BlankInt(input.id) || Blank(input.name) {
      code := StatusBadRequest;
    } else {
      var id, name := input.id.value, php.clean(input.name.value);
      if exec == Throws {
        code := StatusServerError;
      } else if id in db.categories && NameHeldByOther(db.categories, name, id) {
        code := StatusConflict;
      } else if exec == ReturnsFalse {
        code := StatusUnavailable;
      } else {
        if id in db.categories {
          db.categories := db.categories[id := name];
        }
        code := StatusOk;
      }
    }
    ghost var expected := UpdateCategoryOutcome(before, php, input, exec);
    assert Outcome(code, db.Snapshot()) == expected;
    assert Integrity(expected.tables);
  }

  method DeleteCategory(db: Database, id: int, plan: Plan) returns (code: int)
    requires db.Valid()
    modifies db
    ensures db.Valid()
    ensures Outcome(code, db.Snapshot()) == DeleteCategoryOutcome(old(db.Snapshot()), id, plan)
  {
    ghost var before := db.Snapshot();
    var inUse := CountInCategory(db.devices, id);
    if plan.first == Throws {
      code := StatusServerError;
    } else if plan.first == Runs && inUse > 0 {
      code := StatusConflict;
    } else if plan.second == Throws || inUse > 0 {
      code := StatusServerError;
    } else if plan.second == ReturnsFalse {
      code := StatusUnavailable;
    } else {
      db.categories := db.categories - {id};
      code := StatusOk;
    }
    ghost var expected := DeleteCategoryOutcome(before, id, plan);
    assert Outcome(code, db.Snapshot()) == expected;
    assert Integrity(expected.tables);
  }

  /** The request dispatch: OPTIONS exits at once, GET lists (nothing changes),
      POST creates, PUT renames, DELETE needs `?id=`, anything else is 405. */
  method HandleCategories(db: Database, php: Runtime, verb: Method, input: CategoryInput, queryId: Option<int>, plan: Plan)
    returns (code: int, rows: set<CategoryRow>)
    requires db.Valid()
    modifies db
    ensures db.Valid()
    ensures !verb.Get? ==> rows == {}
    ensures verb.Options? || verb.Get? || verb.OtherMethod? || (verb.Delete? && queryId.None?) ==> unchanged(db)
    ensures verb.Options? ==> code == StatusOk
    ensures verb.Get? ==> code == (if plan.first == Throws then StatusServerError else StatusOk)
    ensures verb.Get? && plan.first.Runs? ==> rows == ListCategories(db.categories)
    ensures verb.Get? && !plan.first.Runs? ==> rows == {}
    ensures verb.Post? ==>
      Outcome(code, db.Snapshot()) == CreateCategoryOutcome(old(db.Snapshot()), php, input, plan.first)
    ensures verb.Put? ==>
      Outcome(code, db.Snapshot()) == UpdateCategoryOutcome(old(db.Snapshot()), php, input, plan.first)
    ensures verb.Delete? && queryId.None? ==> code == StatusBadRequest
    ensures verb.Delete? && queryId.Some? ==>
      Outcome(code, db.Snapshot()) == DeleteCategoryOutcome(old(db.Snapshot()), queryId.value, plan)
    ensures verb.OtherMethod? ==> code == StatusMethodNotAllowed
  {
    rows := {};
    match verb
    case Options => code := StatusOk;
    case Get => code, rows := GetCategories(db, plan.first);
    case Post => code := CreateCategory(db, php, input, plan.first);
    case Put => code := UpdateCategory(db, php, input, plan.first);
    case Delete =>
      if queryId.Some? {
        code := DeleteCategory(db, queryId.value, plan);
      } else {
        code := StatusBadRequest;
      }
    case OtherMethod(_) => code := StatusMethodNotAllowed;
  }
}
