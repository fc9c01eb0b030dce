/** backend/api/transactions.php: the stock ledger. A new transaction row is
    inserted and then the referenced device's quantity is adjusted in place by
    the signed amount; nothing rolls the insert back if the adjustment fails. */
module TransactionsApi {
  import opened Common
  import opened Store

  /** The JSON body of a POST; an absent or null member is `None`. */
  datatype TransactionInput = TransactionInput(
    id: Option<string>,
    deviceId: Option<string>,
    kind: Option<string>,
    quantity: Option<int>,
    transactionDate: Option<string>,
    userName: Option<string>,
    destination: Option<string>,
    recipient: Option<string>,
    source: Option<string>,
    sender: Option<string>,
    registrationNumbers: Option<seq<string>>)

  /** The required members are all non-empty in PHP's sense (a quantity of 0 is
      empty; a negative one is not). */
  predicate Complete(input: TransactionInput) {
    && !Blank(input.id)
    && !Blank(input.deviceId)
    && !Blank(input.kind)
    && !BlankInt(input.quantity)
    && !Blank(input.transactionDate)
    && !Blank(input.userName)
  }

  /** The row the INSERT binds: strings cleaned, absent optional members stored as
      null, the registration numbers stored as their JSON text. */
  function Record(php: Runtime, input: TransactionInput): (t: Transaction)
    requires Complete(input)
    ensures t.quantity == input.quantity.value && t.quantity != 0
    ensures t.destination.None? <==> input.destination.None?
    ensures t.recipient.None? <==> input.recipient.None?
    ensures t.source.None? <==> input.source.None?
    ensures t.sender.None? <==> input.sender.None?
    ensures t.registrationNumbers.None? <==> input.registrationNumbers.None?
  {
    Transaction(
      php.clean(input.id.value),
      php.clean(input.deviceId.value),
      php.clean(input.kind.value),
      input.quantity.value,
      php.clean(input.transactionDate.value),
      php.clean(input.userName.value),
      CleanOpt(php, input.destination),
      CleanOpt(php, input.recipient),
      CleanOpt(php, input.source),
      CleanOpt(php, input.sender),
      match input.registrationNumbers
      case Some(list) => Some(php.jsonEncode(list))
      case None => None)
  }

  /** The signed change a transaction makes: "in" adds, every other type subtracts. */
  function Delta(t: Transaction): int {
    if t.kind == "in" then t.quantity else -t.quantity
  }

  /** `UPDATE devices SET quantity = quantity +/- :quantity WHERE id = :device_id` */
  function ApplyTransaction(devices: map<string, Device>, t: Transaction): (r: map<string, Device>)
    ensures r.Keys == devices.Keys
    ensures forall k :: k in devices && k != t.deviceId ==> r[k] == devices[k]
    ensures t.deviceId in devices ==>
      r[t.deviceId] == devices[t.deviceId].(quantity := devices[t.deviceId].quantity + Delta(t))
  {
    if t.deviceId in devices then
      var d := devices[t.deviceId];
      devices[t.deviceId := d.(quantity := d.quantity + Delta(t))]
    else
      devices
  }

  /** The INSERT passes the primary-key and foreign-key constraints. */
  predicate InsertAccepted(t: Tables, rec: Transaction) {
    && rec.deviceId in t.devices
    && forall i :: 0 <= i < |t.transactions| ==> t.transactions[i].id != rec.id
  }

  /** createTransaction: validate, insert (statement `plan.first`), then adjust the
      quantity (statement `plan.second`). */
  function CreateTransactionOutcome(t: Tables, php: Runtime, input: TransactionInput, plan: Plan): (r: Outcome)
    ensures Integrity(t) ==> Integrity(r.tables)
    ensures !Complete(input) ==> r == Outcome(StatusBadRequest, t)
    ensures r.code == StatusCreated || r.code == StatusBadRequest || r.code == StatusServerError
    ensures r.code == StatusBadRequest <==> !Complete(input)
    // a failed insert attempts no update: 500 and nothing changes
    ensures Complete(input) && !(plan.first == Runs && InsertAccepted(t, Record(php, input))) ==>
      r == Outcome(StatusServerError, t)
    ensures r.tables == t.(transactions := r.tables.transactions, devices := r.tables.devices)
    ensures r.code == StatusCreated <==>
      Complete(input) && plan.first == Runs && InsertAccepted(t, Record(php, input)) && plan.second != Throws
    // the row is stored exactly when the insert ran, whatever happens to the update
    ensures r.tables.transactions != t.transactions <==>
      Complete(input) && plan.first == Runs && InsertAccepted(t, Record(php, input))
    ensures r.tables.transactions != t.transactions ==>
      r.tables.transactions == t.transactions + [Record(php, input)]
    // the quantity moves only after a stored row, and only if the update runs
    ensures r.tables.devices != t.devices ==>
      r.tables.transactions != t.transactions && plan.second == Runs
    ensures r.tables.transactions != t.transactions && plan.second == Runs ==>
      r.tables.devices == ApplyTransaction(t.devices, Record(php, input))
    // no rollback: a failing update leaves the stored row behind and answers 500
    ensures r.tables.transactions != t.transactions && plan.second == Throws ==>
      r.code == StatusServerError && r.tables.devices == t.devices
  {
    if !Complete(input) then
      Outcome(StatusBadRequest, t)
    else
      var rec := Record(php, input);
      if plan.first != Runs || !InsertAccepted(t, rec) then
        Outcome(StatusServerError, t)
      else
        var logged := t.(transactions := t.transactions + [rec]);
        match plan.second
        case Throws => Outcome(StatusServerError, logged)
        case ReturnsFalse => Outcome(StatusCreated, logged)
        case Runs => Outcome(StatusCreated, logged.(devices := ApplyTransaction(t.devices, rec)))
  }

  method CreateTransaction(db: Database, php: Runtime, input: TransactionInput, plan: Plan) returns (code: int)
    requires db.Valid()
    modifies db
    ensures db.Valid()
    ensures Outcome(code, db.Snapshot()) == CreateTransactionOutcome(old(db.Snapshot()), php, input, plan)
  {
    ghost var before := db.Snapshot();
    if !Complete(input) {
      code := StatusBadRequest;
      return;
    }
    var rec := Record(php, input);
    if plan.first != Runs || !InsertAccepted(db.Snapshot(), rec) {
      code := StatusServerError;
      assert CreateTransactionOutcome(before, php, input, plan) == Outcome(code, before);
      return;
    }
    ghost var logged := before.(transactions := before.transactions + [rec]);
    db.transactions := db.transactions + [rec];
    assert db.Snapshot() == logged;
    match plan.second {
      case Throws =>
        code := StatusServerError;
      case ReturnsFalse =>
        code := StatusCreated;
      case Runs =>
        var d := db.devices[rec.deviceId];
        db.devices := db.devices[rec.deviceId := d.(quantity := d.quantity + Delta(rec))];
        assert db.Snapshot() == logged.(devices := ApplyTransaction(before.devices, rec));
        code := StatusCreated;
    }
    assert Integrity(CreateTransactionOutcome(before, php, input, plan).tables);
  }

  /** The devices table after applying a whole log, oldest row first. */
  function Replay(devices: map<string, Device>, log: seq<Transaction>): map<string, Device>
  {
    if log == [] then devices
    else ApplyTransaction(Replay(devices, log[..|log| - 1]), log[|log| - 1])
  }

  /** Sum of the quantities of the "in" rows of `key` in `log`. */
  function Received(log: seq<Transaction>, key: string): int {
    if log == [] then 0
    else
      var t := log[|log| - 1];
      Received(log[..|log| - 1], key) + (if t.deviceId == key && t.kind == "in" then t.quantity else 0)
  }

  /** Sum of the quantities of the rows of `key` in `log` whose type is not "in". */
  function Issued(log: seq<Transaction>, key: string): int {
    if log == [] then 0
    else
      var t := log[|log| - 1];
      Issued(log[..|log| - 1], key) + (if t.deviceId == key && t.kind != "in" then t.quantity else 0)
  }

  /** Replaying a log leaves a device at its initial quantity plus everything
      received minus everything issued, with its other columns untouched and no
      lower bound on the result. */
  lemma {:induction false} ReplayNet(devices: map<string, Device>, log: seq<Transaction>, key: string)
    requires key in devices
    ensures key in Replay(devices, log)
    ensures Replay(devices, log)[key] ==
      devices[key].(quantity := devices[key].quantity + Received(log, key) - Issued(log, key))
  {
    if log != [] {
      ReplayNet(devices, log[..|log| - 1], key);
    }
  }

  /** Devices that no row of the log references keep their row. */
  lemma {:induction false} ReplayUntouched(devices: map<string, Device>, log: seq<Transaction>, key: string)
    requires key in devices
    requires forall i :: 0 <= i < |log| ==> log[i].deviceId != key
    ensures key in Replay(devices, log) && Replay(devices, log)[key] == devices[key]
  {
    if log != [] {
      ReplayUntouched(devices, log[..|log| - 1], key);
    }
  }

  /** Two adjustments give the same table in either order, so concurrent +5 and
      -3 on one device both end at initial + 2. */
  lemma ApplyCommutes(devices: map<string, Device>, a: Transaction, b: Transaction)
    ensures ApplyTransaction(ApplyTransaction(devices, a), b) == ApplyTransaction(ApplyTransaction(devices, b), a)
  {
  }

  /** How `getTransactions` returns the registration-number column: null stays
      null, a falsy string is returned as it is, anything else is JSON-decoded. */
  datatype Numbers = NoNumbers | RawNumbers(text: string) | DecodedNumbers(items: seq<string>)

  datatype TransactionRow = TransactionRow(transaction: Transaction, numbers: Numbers)

  function DecodeNumbers(php: Runtime, column: Option<string>): Numbers {
    match column
    case None => NoNumbers
    case Some(text) => if Truthy(text) then DecodedNumbers(php.jsonDecode(text)) else RawNumbers(text)
  }

  function ListTransactions(php: Runtime, log: seq<Transaction>): (rows: seq<TransactionRow>)
    ensures |rows| == |log|
    ensures forall i :: 0 <= i < |log| ==> rows[i].transaction == log[i]
  {
    seq(|log|, i requires 0 <= i < |log| => TransactionRow(log[i], DecodeNumbers(php, log[i].registrationNumbers)))
  }

  /** A list stored by createTransaction is listed back unchanged, provided the
      JSON codec round-trips it (JSON text of a list is never "" or "0"). */
  lemma ListedNumbersRoundTrip(php: Runtime, input: TransactionInput)
    requires Complete(input)
    requires input.registrationNumbers.Some?
    requires php.jsonDecode(php.jsonEncode(input.registrationNumbers.value)) == input.registrationNumbers.value
    requires Truthy(php.jsonEncode(input.registrationNumbers.value))
    ensures ListTransactions(php, [Record(php, input)])[0].numbers == DecodedNumbers(input.registrationNumbers.value)
  {
  }

  /** getTransactions: a throwing query answers 500; a query whose `execute()`
      returns false fetches nothing and answers 200 with an empty list. */
  method GetTransactions(db: Database, php: Runtime, query: Exec) returns (code: int, rows: seq<TransactionRow>)
    ensures query == Throws ==> code == StatusServerError && rows == []
    ensures query.Runs? ==> rows == ListTransactions(php, db.transactions)
    ensures query == ReturnsFalse ==> code == StatusOk && rows == []
    ensures query == Runs ==> code == StatusOk && |rows| == |db.transactions|
    ensures query == Runs ==> forall i :: 0 <= i < |rows| ==>
      rows[i].transaction == db.transactions[i] &&
      rows[i].numbers == DecodeNumbers(php, db.transactions[i].registrationNumbers)
  {
    match query
    case Throws => code, rows := StatusServerError, [];
    case ReturnsFalse => code, rows := StatusOk, [];
    case Runs => code, rows := StatusOk, ListTransactions(php, db.transactions);
  }

  /** The request dispatch: OPTIONS exits before any work, GET lists, POST
      creates, any other method is refused with 405. */
  method HandleTransactions(db: Database, php: Runtime, verb: Method, input: TransactionInput, plan: Plan)
    returns (code: int, rows: seq<TransactionRow>)
    requires db.Valid()
    modifies db
    ensures db.Valid()
    ensures !verb.Post? ==> unchanged(db)
    ensures verb.Options? ==> code == StatusOk && rows == []
    ensures verb.Get? ==> code == (if plan.first == Throws then StatusServerError else StatusOk)
    ensures verb.Get? && plan.first.Runs? ==> rows == ListTransactions(php, db.transactions)
    ensures verb.Get? && !plan.first.Runs? ==> rows == []
    ensures verb.Post? ==>
      rows == [] && Outcome(code, db.Snapshot()) == CreateTransactionOutcome(old(db.Snapshot()), php, input, plan)
    ensures verb.Put? || verb.Delete? || verb.OtherMethod? ==>
      code == StatusMethodNotAllowed && rows == []
  {
    match verb
    case Options =>
      code, rows := StatusOk, [];
    case Get =>
      code, rows := GetTransactions(db, php, plan.first);
    case Post =>
      code := CreateTransaction(db, php, input, plan);
      rows := [];
    case _ =>
      code, rows := StatusMethodNotAllowed, [];
  }
}
