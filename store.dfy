/** The relational store behind the PHP API: the categories, devices, users and
    transactions tables, with the integrity constraints the database enforces. */
module Store {
  import opened Common

  /** A row of `devices`, keyed by its externally assigned id. */
  datatype Device = Device(
    name: string,
    categoryId: int,
    brand: string,
    quantity: int,
    status: string,
    condition: string,
    description: Option<string>)

  /** A row of `transactions`; `registrationNumbers` holds the JSON text of the list. */
  datatype Transaction = Transaction(
    id: string,
    deviceId: string,
    kind: string,
    quantity: int,
    date: string,
    userName: string,
    destination: Option<string>,
    recipient: Option<string>,
    source: Option<string>,
    sender: Option<string>,
    registrationNumbers: Option<string>)

  /** A row of `users`, keyed by its auto-increment id; `password` is the stored digest. */
  datatype User = User(name: string, email: string, password: string, role: Option<string>)

  /** The contents of the whole database at one moment. */
  datatype Tables = Tables(
    categories: map<int, string>,
    nextCategoryId: int,
    devices: map<string, Device>,
    users: map<int, User>,
    nextUserId: int,
    transactions: seq<Transaction>)

  /** What a handler answers and what the database holds afterwards. */
  datatype Outcome = Outcome(code: int, tables: Tables)

  const EmptyTables := Tables(map[], 1, map[], map[], 1, [])

  predicate UniqueNames(categories: map<int, string>) {
    forall a, b :: a in categories && b in categories && categories[a] == categories[b] ==> a == b
  }

  predicate UniqueEmails(users: map<int, User>) {
    forall a, b :: a in users && b in users && users[a].email == users[b].email ==> a == b
  }

  predicate UniqueTransactionIds(transactions: seq<Transaction>) {
    forall i, j :: 0 <= i < j < |transactions| ==> transactions[i].id != transactions[j].id
  }

  /** The integrity constraints of the schema: auto-increment keys below their
      counters, unique category names and user e-mails, unique transaction ids,
      and the two foreign keys (device -> category, transaction -> device). */
  predicate Integrity(t: Tables) {
    && 1 <= t.nextCategoryId
    && (forall id :: id in t.categories ==> 1 <= id < t.nextCategoryId)
    && UniqueNames(t.categories)
    && (forall k :: k in t.devices ==> t.devices[k].categoryId in t.categories)
    && (forall i :: 0 <= i < |t.transactions| ==> t.transactions[i].deviceId in t.devices)
    && UniqueTransactionIds(t.transactions)
    && 1 <= t.nextUserId
    && (forall id :: id in t.users ==> 1 <= id < t.nextUserId)
    && UniqueEmails(t.users)
  }

  /** True iff some category other than `self` is called `name`. */
  predicate NameHeldByOther(categories: map<int, string>, name: string, self: int) {
    exists other :: other in categories && other != self && categories[other] == name
  }

  /** True iff some user other than `self` has e-mail `email`. */
  predicate EmailHeldByOther(users: map<int, User>, email: string, self: int) {
    exists other :: other in users && other != self && users[other].email == email
  }

  /** True iff some transaction row references device `key`. */
  predicate Referenced(transactions: seq<Transaction>, key: string) {
    exists i :: 0 <= i < |transactions| && transactions[i].deviceId == key
  }

  /** The number of devices whose `category_id` is `id`
      (`SELECT COUNT(*) FROM devices WHERE category_id = :id`). */
  function CountInCategory(devices: map<string, Device>, id: int): (n: nat)
    ensures n == 0 <==> forall k :: k in devices ==> devices[k].categoryId != id
  {
    var keys := set k | k in devices && devices[k].categoryId == id;
    assert keys == {} ==> forall k :: k in devices ==> devices[k].categoryId != id by {
      if keys == {} {
        forall k | k in devices ensures devices[k].categoryId != id {
          assert k !in keys;
        }
      }
    }
    |keys|
  }

  /** The database the handlers share, updated in place by each request. */
  class Database {
    var categories: map<int, string>
    var nextCategoryId: int
    var devices: map<string, Device>
    var users: map<int, User>
    var nextUserId: int
    var transactions: seq<Transaction>

    function Snapshot(): Tables
      reads this
    {
      Tables(categories, nextCategoryId, devices, users, nextUserId, transactions)
    }

    ghost predicate Valid()
      reads this
    {
      Integrity(Snapshot())
    }

    /** An empty database. */
    constructor ()
      ensures Valid() && Snapshot() == EmptyTables
    {
      categories, nextCategoryId := map[], 1;
      devices := map[];
      users, nextUserId := map[], 1;
      transactions := [];
    }
  }
}
