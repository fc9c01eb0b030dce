/** backend/api/devices.php: insert, overwrite and delete rows of `devices`. */
module DevicesApi {
  import opened Common
  import opened Store

  /** The JSON body of a POST or PUT. */
  datatype DeviceInput = DeviceInput(
    id: Option<string>,
    name: Option<string>,
    categoryId: Option<int>,
    brand: Option<string>,
    quantity: Option<int>,
    status: Option<string>,
    condition: Option<string>,
    description: Option<string>)

  /** A row of the listing: the device's columns (`d.*`) and, from the LEFT JOIN,
      `category_name`, null when no category has the row's `category_id`. */
  datatype DeviceRow = DeviceRow(id: string, device: Device, categoryName: Option<string>)

  /** The `category_name` the LEFT JOIN attaches to a device. */
  function JoinedName(categories: map<int, string>, d: Device): (name: Option<string>)
    ensures name.Some? <==> d.categoryId in categories
  {
    if d.categoryId in categories then Some(categories[d.categoryId]) else None
  }

  /** getDevices: one row per device, carrying its category's name. */
  function ListDevices(devices: map<string, Device>, categories: map<int, string>): (rows: set<DeviceRow>)
    ensures forall k :: k in devices ==> DeviceRow(k, devices[k], JoinedName(categories, devices[k])) in rows
    ensures forall row :: row in rows ==>
      row.id in devices && row.device == devices[row.id] && row.categoryName == JoinedName(categories, row.device)
  {
    set k | k in devices :: DeviceRow(k, devices[k], JoinedName(categories, devices[k]))
  }

  /** createDevice's guard: id, name, category_id and brand all non-empty. */
  predicate CreateComplete(input: DeviceInput) {
    !Blank(input.id) && !Blank(input.name) && !BlankInt(input.categoryId) && !Blank(input.brand)
  }

  /** The columns both createDevice and updateDevice bind, with their defaults:
      quantity 0, status 'In Stock', condition 'Normal', description null; an absent
      name or brand binds "" and an absent category id binds 0. */
  function Columns(php: Runtime, input: DeviceInput): (d: Device)
    ensures input.quantity.None? ==> d.quantity == 0
    ensures input.quantity.Some? ==> d.quantity == input.quantity.value
    ensures input.status.None? ==> d.status == "In Stock"
    ensures input.condition.None? ==> d.condition == "Normal"
    ensures input.description.None? <==> d.description.None?
    ensures input.categoryId.None? ==> d.categoryId == 0
  {
    Device(
      CleanOr(php, input.name),
      input.categoryId.GetOr(0),
      CleanOr(php, input.brand),
      input.quantity.GetOr(0),
      match input.status case Some(s) => php.clean(s) case None => "In Stock",
      match input.condition case Some(c) => php.clean(c) case None => "Normal",
      CleanOpt(php, input.description))
  }

  /** createDevice: a duplicate id or an unknown category violates a constraint,
      which this handler reports as 500 (it has no 409 branch). */
  function CreateDeviceOutcome(t: Tables, php: Runtime, input: DeviceInput, exec: Exec): (r: Outcome)
    ensures Integrity(t) ==> Integrity(r.tables)
    ensures !CreateComplete(input) ==> r == Outcome(StatusBadRequest, t)
    ensures r.code != StatusOk ==> r.tables == t
    ensures r.tables == t.(devices := r.tables.devices)
    ensures r.code == StatusOk <==>
      && CreateComplete(input) && exec.Runs?
      && php.clean(input.id.value) !in t.devices
      && input.categoryId.value in t.categories
    // a success inserts exactly one row, under the cleaned id, with the defaults filled in
    ensures r.code == StatusOk ==>
      r.tables.devices == t.devices[php.clean(input.id.value) := Columns(php, input)]
  {
    if !CreateComplete(input) then
      Outcome(StatusBadRequest, t)
    else
      var key, row := php.clean(input.id.value), Columns(php, input);
      if exec == Throws || key in t.devices || row.categoryId !in t.categories then Outcome(StatusServerError, t)
      else if exec == ReturnsFalse then Outcome(StatusUnavailable, t)
      else Outcome(StatusOk, t.(devices := t.devices[key := row]))
  }

  /** updateDevice: every column of the row is overwritten, so an absent quantity
      resets it to 0 rather than keeping it; an id that matches no row changes nothing. */
  function UpdateDeviceOutcome(t: Tables, php: Runtime, input: DeviceInput, exec: Exec): (r: Outcome)
    ensures Integrity(t) ==> Integrity(r.tables)
    ensures Blank(input.id) ==> r == Outcome(StatusBadRequest, t)
    ensures r.code != StatusOk ==> r.tables == t
    ensures r.tables == t.(devices := r.tables.devices)
    ensures r.tables.devices.Keys == t.devices.Keys
    // an update whose statement runs succeeds unless it points an existing row at an unknown category
    ensures r.code == StatusOk <==>
      && !Blank(input.id) && exec.Runs?
      && !(php.clean(input.id.value) in t.devices && Columns(php, input).categoryId !in t.categories)
    // the foreign key refuses an unknown category, and the exception answers 500
    ensures !Blank(input.id) && php.clean(input.id.value) in t.devices && Columns(php, input).categoryId !in t.categories ==>
      r == Outcome(StatusServerError, t)
    ensures forall k :: k in t.devices && (Blank(input.id) || k != php.clean(input.id.value)) ==>
      r.tables.devices[k] == t.devices[k]
    ensures r.code == StatusOk && php.clean(input.id.value) in t.devices ==>
      r.tables.devices[php.clean(input.id.value)] == Columns(php, input)
    ensures r.code == StatusOk && input.quantity.None? && php.clean(input.id.value) in t.devices ==>
      r.tables.devices[php.clean(input.id.value)].quantity == 0
  {
    if Blank(input.id) then
      Outcome(StatusBadRequest, t)
    else
      var key, row := php.clean(input.id.value), Columns(php, input);
      if exec == Throws || (key in t.devices && row.categoryId !in t.categories) then Outcome(StatusServerError, t)
      else if exec == ReturnsFalse then Outcome(StatusUnavailable, t)
      else if key in t.devices then Outcome(StatusOk, t.(devices := t.devices[key := row]))
      else Outcome(StatusOk, t)
  }

  /** Both device statements name the column `condition` unquoted, and MySQL
      reserves that word, so each statement fails to prepare and throws: a
      complete create and a non-blank update answer 500 and change nothing. Had the
      statements run, a fresh id in an existing category would have been created
      (200), and an existing device updated in place (200). */
  lemma ReservedConditionRefused(t: Tables, php: Runtime, input: DeviceInput)
    requires CreateComplete(input)
    requires php.clean(input.id.value) !in t.devices && input.categoryId.value in t.categories
    ensures CreateDeviceOutcome(t, php, input, Throws) == Outcome(StatusServerError, t)
    ensures UpdateDeviceOutcome(t, php, input, Throws) == Outcome(StatusServerError, t)
    ensures CreateDeviceOutcome(t, php, input, Runs).code == StatusOk
    ensures CreateDeviceOutcome(t, php, input, Runs).tables.devices[php.clean(input.id.value)] == Columns(php, input)
    ensures var created := CreateDeviceOutcome(t, php, input, Runs).tables;
      UpdateDeviceOutcome(created, php, input, Runs) == Outcome(StatusOk, created)
  {
    var created := CreateDeviceOutcome(t, php, input, Runs).tables;
    assert created.devices[php.clean(input.id.value)] == Columns(php, input);
    assert created.devices[php.clean(input.id.value) := Columns(php, input)] == created.devices;
  }

  /** deleteDevice: a device that transactions reference is protected by their
      foreign key, and the resulting exception answers 500. */
  function DeleteDeviceOutcome(t: Tables, php: Runtime, id: string, exec: Exec): (r: Outcome)
    ensures Integrity(t) ==> Integrity(r.tables)
    ensures r.code != StatusOk ==> r.tables == t
    ensures r.tables == t.(devices := r.tables.devices)
    ensures r.code == StatusOk <==> exec.Runs? && !Referenced(t.transactions, php.clean(id))
    ensures r.code == StatusOk ==> r.tables.devices == t.devices - {php.clean(id)}
  {
    var key := php.clean(id);
    if exec == Throws || Referenced(t.transactions, key) then Outcome(StatusServerError, t)
    else if exec == ReturnsFalse then Outcome(StatusUnavailable, t)
    else Outcome(StatusOk, t.(devices := t.devices - {key}))
  }

  /** getDevices as a read: 500 when the query throws; otherwise 200 with the
      listing, which is empty when `execute()` returns false (nothing to fetch). */
  method GetDevices(db: Database, exec: Exec) returns (code: int, rows: set<DeviceRow>)
    ensures exec == Throws ==> code == StatusServerError && rows == {}
    ensures exec == ReturnsFalse ==> code == StatusOk && rows == {}
    ensures exec.Runs? ==> code == StatusOk && rows == ListDevices(db.devices, db.categories)
  {
    if exec == Throws {
      code, rows := StatusServerError, {};
    } else if exec == ReturnsFalse {
      code, rows := StatusOk, {};
    } else {
      code, rows := StatusOk, ListDevices(db.devices, db.categories);
    }
  }

  method CreateDevice(db: Database, php: Runtime, input: DeviceInput, exec: Exec) returns (code: int)
    requires db.Valid()
    modifies db
    ensures db.Valid()
    ensures Outcome(code, db.Snapshot()) == CreateDeviceOutcome(old(db.Snapshot()), php, input, exec)
  {
    ghost var before := db.Snapshot();
    if !CreateComplete(input) {
      code := StatusBadRequest;
    } else {
      var key, row := php.clean(input.id.value), Columns(php, input);
      if exec == Throws || key in db.devices || row.categoryId !in db.categories {
        code := StatusServerError;
      } else if exec == ReturnsFalse {
        code := StatusUnavailable;
      } else {
        db.devices := db.devices[key := row];
        code := StatusOk;
      }
    }
    ghost var expected := CreateDeviceOutcome(before, php, input, exec);
    assert Outcome(code, db.Snapshot()) == expected;
    assert Integrity(expected.tables);
  }

  method UpdateDevice(db: Database, php: Runtime, input: DeviceInput, exec: Exec) returns (code: int)
    requires db.Valid()
    modifies db
    ensures db.Valid()
    ensures Outcome(code, db.Snapshot()) == UpdateDeviceOutcome(old(db.Snapshot()), php, input, exec)
  {
    ghost var before := db.Snapshot();
    if Blank(input.id) {
      code := StatusBadRequest;
    } else {
      var key, row := php.clean(input.id.value), Columns(php, input);
      if exec == Throws || (key in db.devices && row.categoryId !in db.categories) {
        code := StatusServerError;
      } else if exec == ReturnsFalse {
        code := StatusUnavailable;
      } else {
        if key in db.devices {
          db.devices := db.devices[key := row];
        }
        code := StatusOk;
      }
    }
    ghost var expected := UpdateDeviceOutcome(before, php, input, exec);
    assert Outcome(code, db.Snapshot()) == expected;
    assert Integrity(expected.tables);
  }

  method DeleteDevice(db: Database, php: Runtime, id: string, exec: Exec) returns (code: int)
    requires db.Valid()
    modifies db
    ensures db.Valid()
    ensures Outcome(code, db.Snapshot()) == DeleteDeviceOutcome(old(db.Snapshot()), php, id, exec)
  {
    ghost var before := db.Snapshot();
    var key := php.clean(id);
    if exec == Throws || Referenced(db.transactions, key) {
      code := StatusServerError;
    } else if exec == ReturnsFalse {
      code := StatusUnavailable;
    } else {
      db.devices := db.devices - {key};
      code := StatusOk;
    }
    ghost var expected := DeleteDeviceOutcome(before, php, id, exec);
    assert Outcome(code, db.Snapshot()) == expected;
    assert Integrity(expected.tables);
  }

  /** The request dispatch: OPTIONS exits at once, GET lists (nothing changes),
      POST creates, PUT overwrites, DELETE needs `?id=`, anything else is 405. */
  method HandleDevices(db: Database, php: Runtime, verb: Method, input: DeviceInput, queryId: Option<string>, exec: Exec)
    returns (code: int, rows: set<DeviceRow>)
    requires db.Valid()
    modifies db
    ensures db.Valid()
    ensures !verb.Get? ==> rows == {}
    ensures verb.Options? || verb.Get? || verb.OtherMethod? || (verb.Delete? && queryId.None?) ==> unchanged(db)
    ensures verb.Options? ==> code == StatusOk
    ensures verb.Get? ==> code == (if exec == Throws then StatusServerError else StatusOk)
    ensures verb.Get? && exec.Runs? ==> rows == ListDevices(db.devices, db.categories)
    ensures verb.Get? && !exec.Runs? ==> rows == {}
    ensures verb.Post? ==>
      Outcome(code, db.Snapshot()) == CreateDeviceOutcome(old(db.Snapshot()), php, input, exec)
    ensures verb.Put? ==>
      Outcome(code, db.Snapshot()) == UpdateDeviceOutcome(old(db.Snapshot()), php, input, exec)
    ensures verb.Delete? && queryId.None? ==> code == StatusBadRequest
    ensures verb.Delete? && queryId.Some? ==>
      Outcome(code, db.Snapshot()) == DeleteDeviceOutcome(old(db.Snapshot()), php, queryId.value, exec)
    ensures verb.OtherMethod? ==> code == StatusMethodNotAllowed
  {
    rows := {};
    match verb
    case Options => code := StatusOk;
    case Get => code, rows := GetDevices(db, exec);
    case Post => code := CreateDevice(db, php, input, exec);
    case Put => code := UpdateDevice(db, php, input, exec);
    case Delete =>
      if queryId.Some? {
        code := DeleteDevice(db, php, queryId.value, exec);
      } else {
        code := StatusBadRequest;
      }
    case OtherMethod(_) => code := StatusMethodNotAllowed;
  }
}
