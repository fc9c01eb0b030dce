/** The records the React pages receive from the API, as the pages read them. */
module Ui {
  import opened Common
  import opened Store
  import opened DevicesApi

  /** A device row as the inventory and dashboard pages receive it from the
      devices endpoint. `category` is the `category` member the pages read (None
      when the row has none, where JavaScript gives `undefined`); `categoryName`
      is the `category_name` member, the category's name, which the backend's
      listing actually sends. */
  datatype UiDevice = UiDevice(
    id: string,
    name: string,
    category: Option<string>,
    categoryName: string,
    brand: string,
    quantity: int,
    status: string,
    condition: string)

  /** A transaction object as the dashboard receives it. `date` is the parsed
      `date` member (None when it is missing or does not parse, where JavaScript's
      `new Date(...)` is an invalid date); `transactionDate` is the parsed
      `transaction_date` member, the column the backend actually sends.
      Times are milliseconds since the epoch. */
  datatype UiTransaction = UiTransaction(
    kind: string,
    quantity: int,
    date: Option<int>,
    transactionDate: Option<int>)

  /** Rows as the devices endpoint sends them (`SELECT d.*, c.name as
      category_name`) have no `category` member. */
  predicate BackendRows(ds: seq<UiDevice>) {
    forall i :: 0 <= i < |ds| ==> ds[i].category.None?
  }

  /** A listing row as getDevices in utils/api.ts hands it on, unchanged: the
      pages read its `category_name` and find no `category` member. A null
      `category_name` reads as "" here; under the foreign key there is none
      (`ReceivedListing`). */
  function Received(row: DeviceRow): (d: UiDevice)
    ensures d.category.None?
    ensures d.id == row.id && d.name == row.device.name && d.quantity == row.device.quantity
    ensures row.categoryName.Some? ==> d.categoryName == row.categoryName.value
  {
    UiDevice(row.id, row.device.name, None, row.categoryName.GetOr(""), row.device.brand,
             row.device.quantity, row.device.status, row.device.condition)
  }

  /** The device listing as the pages receive it. */
  function ReceivedRows(rows: seq<DeviceRow>): (ds: seq<UiDevice>)
    ensures |ds| == |rows|
    ensures forall i :: 0 <= i < |rows| ==> ds[i] == Received(rows[i])
  {
    seq(|rows|, i requires 0 <= i < |rows| => Received(rows[i]))
  }

  /** What the pages receive from the devices endpoint, in whatever order it
      sends the rows: no row has a `category` member, and every row's
      `category_name` is the name of the category its device references. */
  lemma ReceivedListing(t: Tables, rows: seq<DeviceRow>)
    requires Integrity(t)
    requires forall i :: 0 <= i < |rows| ==> rows[i] in ListDevices(t.devices, t.categories)
    ensures BackendRows(ReceivedRows(rows))
    ensures forall i :: 0 <= i < |rows| ==>
      && rows[i].device.categoryId in t.categories
      && ReceivedRows(rows)[i].categoryName == t.categories[rows[i].device.categoryId]
  {
    var ds := ReceivedRows(rows);
    forall i | 0 <= i < |rows|
      ensures rows[i].device.categoryId in t.categories
      ensures ds[i].categoryName == t.categories[rows[i].device.categoryId]
    {
      assert rows[i].id in t.devices;
    }
  }

  /** `devices.reduce((sum, d) => sum + d.quantity, 0)` */
  function Total(ds: seq<UiDevice>): (sum: int)
    ensures (forall i :: 0 <= i < |ds| ==> ds[i].quantity >= 0) ==> sum >= 0
    ensures ds == [] ==> sum == 0
  {
    if ds == [] then 0 else Total(ds[..|ds| - 1]) + ds[|ds| - 1].quantity
  }

  /** The total of a concatenation is the sum of the totals. */
  lemma {:induction false} TotalAppend(a: seq<UiDevice>, b: seq<UiDevice>)
    ensures Total(a + b) == Total(a) + Total(b)
  {
    if b == [] {
      assert a + b == a;
    } else {
      TotalAppend(a, b[..|b| - 1]);
      assert (a + b)[..|a + b| - 1] == a + b[..|b| - 1];
      assert (a + b)[|a + b| - 1] == b[|b| - 1];
    }
  }
}
