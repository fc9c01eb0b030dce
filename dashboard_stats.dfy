/** utils/api.ts, getDashboardStats: the dashboard's totals and counts, computed
    from the device and transaction lists and the current time. */
module DashboardStats {
  import opened Common
  import opened Ui

  datatype Stats = Stats(
    totalItems: int,
    lowStockItems: nat,
    outOfStockItems: nat,
    normalItems: int,
    damagedItems: int,
    itemsOut: int,
    itemsIn: int,
    recentTransactions: nat)

  const DayMs: int := 86400000
  /** The cutoff is thirty days before now. */
  const WindowMs: int := 30 * DayMs

  /** `devices.filter(d => d.status === s)` */
  function WithStatus(ds: seq<UiDevice>, s: string): (r: seq<UiDevice>)
    ensures |r| <= |ds|
    ensures forall i :: 0 <= i < |r| ==> r[i].status == s
  {
    if ds == [] then []
    else WithStatus(ds[..|ds| - 1], s) + (if ds[|ds| - 1].status == s then [ds[|ds| - 1]] else [])
  }

  /** A device is counted under a status iff its status is exactly that string. */
  lemma {:induction false} WithStatusKeeps(ds: seq<UiDevice>, s: string, d: UiDevice)
    ensures d in WithStatus(ds, s) <==> d in ds && d.status == s
  {
    if ds != [] {
      WithStatusKeeps(ds[..|ds| - 1], s, d);
      assert ds == ds[..|ds| - 1] + [ds[|ds| - 1]];
    }
  }

  /** The status filter keeps every copy of a device with that status and no
      other device. */
  lemma {:induction false} WithStatusCount(ds: seq<UiDevice>, s: string, d: UiDevice)
    ensures multiset(WithStatus(ds, s))[d] == if d.status == s then multiset(ds)[d] else 0
  {
    if ds != [] {
      WithStatusCount(ds[..|ds| - 1], s, d);
      assert ds == ds[..|ds| - 1] + [ds[|ds| - 1]];
    }
  }

  /** `devices.filter(d => d.condition === c)` */
  function WithCondition(ds: seq<UiDevice>, c: string): (r: seq<UiDevice>)
    ensures |r| <= |ds|
    ensures forall i :: 0 <= i < |r| ==> r[i].condition == c
  {
    if ds == [] then []
    else WithCondition(ds[..|ds| - 1], c) + (if ds[|ds| - 1].condition == c then [ds[|ds| - 1]] else [])
  }

  /** The condition filter keeps every copy of a device with that condition and
      no other device. */
  lemma {:induction false} WithConditionCount(ds: seq<UiDevice>, c: string, d: UiDevice)
    ensures multiset(WithCondition(ds, c))[d] == if d.condition == c then multiset(ds)[d] else 0
  {
    if ds != [] {
      WithConditionCount(ds[..|ds| - 1], c, d);
      assert ds == ds[..|ds| - 1] + [ds[|ds| - 1]];
    }
  }

  /** A transaction is recent iff the date read through `dateOf` is a valid date
      no earlier than `cutoff`; a date in the future is recent too. */
  predicate IsRecent(t: UiTransaction, cutoff: int, dateOf: UiTransaction -> Option<int>) {
    dateOf(t).Some? && dateOf(t).value >= cutoff
  }

  /** `transactions.filter(t => new Date(<date>) >= thirtyDaysAgo)` */
  function Recent(ts: seq<UiTransaction>, cutoff: int, dateOf: UiTransaction -> Option<int>): (r: seq<UiTransaction>)
    ensures |r| <= |ts|
    ensures forall i :: 0 <= i < |r| ==> IsRecent(r[i], cutoff, dateOf) && r[i] in ts
  {
    if ts == [] then []
    else Recent(ts[..|ts| - 1], cutoff, dateOf) + (if IsRecent(ts[|ts| - 1], cutoff, dateOf) then [ts[|ts| - 1]] else [])
  }

  /** A transaction is kept by the recent filter iff it is recent. */
  lemma {:induction false} RecentKeeps(ts: seq<UiTransaction>, cutoff: int, dateOf: UiTransaction -> Option<int>, t: UiTransaction)
    ensures t in Recent(ts, cutoff, dateOf) <==> t in ts && IsRecent(t, cutoff, dateOf)
  {
    if ts != [] {
      RecentKeeps(ts[..|ts| - 1], cutoff, dateOf, t);
      assert ts == ts[..|ts| - 1] + [ts[|ts| - 1]];
    }
  }

  /** The recent filter keeps every copy of a recent transaction and no other. */
  lemma {:induction false} RecentCount(ts: seq<UiTransaction>, cutoff: int, dateOf: UiTransaction -> Option<int>, t: UiTransaction)
    ensures multiset(Recent(ts, cutoff, dateOf))[t] == if IsRecent(t, cutoff, dateOf) then multiset(ts)[t] else 0
  {
    if ts != [] {
      RecentCount(ts[..|ts| - 1], cutoff, dateOf, t);
      assert ts == ts[..|ts| - 1] + [ts[|ts| - 1]];
    }
  }

  /** Every transaction is recent: the filter keeps them all. */
  lemma {:induction false} RecentAll(ts: seq<UiTransaction>, cutoff: int, dateOf: UiTransaction -> Option<int>)
    ensures (forall i :: 0 <= i < |ts| ==> IsRecent(ts[i], cutoff, dateOf)) ==> Recent(ts, cutoff, dateOf) == ts
  {
    if ts != [] {
      RecentAll(ts[..|ts| - 1], cutoff, dateOf);
      assert ts == ts[..|ts| - 1] + [ts[|ts| - 1]];
    }
  }

  /** No transaction is recent: the filter keeps none. */
  lemma {:induction false} RecentNone(ts: seq<UiTransaction>, cutoff: int, dateOf: UiTransaction -> Option<int>)
    ensures (forall i :: 0 <= i < |ts| ==> !IsRecent(ts[i], cutoff, dateOf)) ==> Recent(ts, cutoff, dateOf) == []
  {
    if ts != [] {
      RecentNone(ts[..|ts| - 1], cutoff, dateOf);
    }
  }

  /** `transactions.filter(t => t.type === kind)` */
  function OfKind(ts: seq<UiTransaction>, kind: string): (r: seq<UiTransaction>)
    ensures |r| <= |ts|
    ensures forall i :: 0 <= i < |r| ==> r[i].kind == kind && r[i] in ts
  {
    if ts == [] then []
    else OfKind(ts[..|ts| - 1], kind) + (if ts[|ts| - 1].kind == kind then [ts[|ts| - 1]] else [])
  }

  /** The type filter keeps every copy of a transaction of that type and no other. */
  lemma {:induction false} OfKindCount(ts: seq<UiTransaction>, kind: string, t: UiTransaction)
    ensures multiset(OfKind(ts, kind))[t] == if t.kind == kind then multiset(ts)[t] else 0
  {
    if ts != [] {
      OfKindCount(ts[..|ts| - 1], kind, t);
      assert ts == ts[..|ts| - 1] + [ts[|ts| - 1]];
    }
  }

  /** `transactions.reduce((sum, t) => sum + t.quantity, 0)` */
  function SumQuantity(ts: seq<UiTransaction>): (q: int)
    ensures (forall i :: 0 <= i < |ts| ==> ts[i].quantity >= 0) ==> q >= 0
  {
    if ts == [] then 0 else SumQuantity(ts[..|ts| - 1]) + ts[|ts| - 1].quantity
  }

  /** The sum of a concatenation is the sum of the sums. */
  lemma {:induction false} SumQuantityAppend(a: seq<UiTransaction>, b: seq<UiTransaction>)
    ensures SumQuantity(a + b) == SumQuantity(a) + SumQuantity(b)
  {
    if b == [] {
      assert a + b == a;
    } else {
      SumQuantityAppend(a, b[..|b| - 1]);
      assert (a + b)[..|a + b| - 1] == a + b[..|b| - 1];
    }
  }

  /** `recent.filter(t => t.type === kind).reduce((sum, t) => sum + t.quantity, 0)`:
      the summed quantity of the transactions of that type. */
  function QuantityOfKind(ts: seq<UiTransaction>, kind: string): (q: int)
    ensures (forall i :: 0 <= i < |ts| ==> ts[i].quantity >= 0) ==> q >= 0
    ensures (forall i :: 0 <= i < |ts| ==> ts[i].kind != kind) ==> q == 0
    ensures (forall i :: 0 <= i < |ts| ==> ts[i].kind == kind) ==> q == SumQuantity(ts)
  {
    var kept := OfKind(ts, kind);
    assert (forall i :: 0 <= i < |ts| ==> ts[i].kind != kind) ==> kept == [] by {
      if kept != [] {
        assert kept[0] in ts;
      }
    }
    assert (forall i :: 0 <= i < |ts| ==> ts[i].kind == kind) ==> kept == ts by {
      OfKindAll(ts, kind);
    }
    SumQuantity(kept)
  }

  /** When every transaction has the type, the filter keeps them all. */
  lemma {:induction false} OfKindAll(ts: seq<UiTransaction>, kind: string)
    ensures (forall i :: 0 <= i < |ts| ==> ts[i].kind == kind) ==> OfKind(ts, kind) == ts
  {
    if ts != [] {
      OfKindAll(ts[..|ts| - 1], kind);
      assert ts == ts[..|ts| - 1] + [ts[|ts| - 1]];
    }
  }

  /** One more transaction adds its quantity to its own type's sum and leaves
      every other type's sum as it was. */
  lemma QuantityOfKindSnoc(ts: seq<UiTransaction>, t: UiTransaction, kind: string)
    ensures QuantityOfKind(ts + [t], kind) == QuantityOfKind(ts, kind) + (if t.kind == kind then t.quantity else 0)
  {
    assert (ts + [t])[..|ts + [t]| - 1] == ts;
    SumQuantityAppend(OfKind(ts, kind), if t.kind == kind then [t] else []);
    assert [t][..0] == [];
  }

  /** When every transaction is 'in' or 'out', the two sums split the total
      quantity moved. */
  lemma {:induction false} InOutPartition(ts: seq<UiTransaction>)
    requires forall i :: 0 <= i < |ts| ==> ts[i].kind in {"in", "out"}
    ensures QuantityOfKind(ts, "in") + QuantityOfKind(ts, "out") == SumQuantity(ts)
  {
    if ts != [] {
      var init, last := ts[..|ts| - 1], ts[|ts| - 1];
      assert forall i :: 0 <= i < |init| ==> init[i].kind in {"in", "out"} by {
        forall i | 0 <= i < |init| ensures init[i].kind in {"in", "out"} {
          assert init[i] == ts[i];
        }
      }
      InOutPartition(init);
      SumQuantityAppend(OfKind(init, "in"), if last.kind == "in" then [last] else []);
      SumQuantityAppend(OfKind(init, "out"), if last.kind == "out" then [last] else []);
      assert [last][..0] == [];
    }
  }

  /** The statistics with recency judged by `dateOf`. */
  function StatsOf(ds: seq<UiDevice>, ts: seq<UiTransaction>, cutoff: int, dateOf: UiTransaction -> Option<int>): (r: Stats)
    ensures r.totalItems == Total(ds)
    // each count and sum is taken over its filter; the *Count lemmas say what the filters keep
    ensures r.lowStockItems == |WithStatus(ds, "Low Stock")| && r.outOfStockItems == |WithStatus(ds, "Out of Stock")|
    ensures r.normalItems == Total(WithCondition(ds, "Normal")) && r.damagedItems == Total(WithCondition(ds, "Rusak"))
    ensures r.recentTransactions == |Recent(ts, cutoff, dateOf)|
    ensures r.itemsIn == QuantityOfKind(Recent(ts, cutoff, dateOf), "in")
    ensures r.itemsOut == QuantityOfKind(Recent(ts, cutoff, dateOf), "out")
    ensures r.lowStockItems + r.outOfStockItems <= |ds|
    ensures r.recentTransactions <= |ts|
    ensures ds == [] && ts == [] ==> r == Stats(0, 0, 0, 0, 0, 0, 0, 0)
    // the in and out sums are non-negative for non-negative quantities ...
    ensures (forall i :: 0 <= i < |ts| ==> ts[i].quantity >= 0) ==> r.itemsIn >= 0 && r.itemsOut >= 0
    // ... and together they are the quantity moved by the recent transactions
    ensures (forall i :: 0 <= i < |ts| ==> ts[i].kind in {"in", "out"}) ==>
      r.itemsIn + r.itemsOut == SumQuantity(Recent(ts, cutoff, dateOf))
    // the condition sums split the total when every device is 'Normal' or 'Rusak'
    ensures NormalOrRusak(ds) ==> r.normalItems + r.damagedItems == r.totalItems
  {
    var recent := Recent(ts, cutoff, dateOf);
    StatusCountsBound(ds);
    assert (forall i :: 0 <= i < |ts| ==> ts[i].kind in {"in", "out"}) ==>
      QuantityOfKind(recent, "in") + QuantityOfKind(recent, "out") == SumQuantity(recent) by {
      if forall i :: 0 <= i < |ts| ==> ts[i].kind in {"in", "out"} {
        forall i | 0 <= i < |recent| ensures recent[i].kind in {"in", "out"} {
          var j :| 0 <= j < |ts| && ts[j] == recent[i];
        }
        InOutPartition(recent);
      }
    }
    assert NormalOrRusak(ds) ==>
      Total(WithCondition(ds, "Normal")) + Total(WithCondition(ds, "Rusak")) == Total(ds) by {
      if NormalOrRusak(ds) {
        ConditionsPartitionTotal(ds);
      }
    }
    Stats(
      Total(ds),
      |WithStatus(ds, "Low Stock")|,
      |WithStatus(ds, "Out of Stock")|,
      Total(WithCondition(ds, "Normal")),
      Total(WithCondition(ds, "Rusak")),
      QuantityOfKind(recent, "out"),
      QuantityOfKind(recent, "in"),
      |recent|)
  }

  /** `t.date`, the member the dashboard reads. */
  function DateMember(t: UiTransaction): Option<int> { t.date }

  /** `t.transaction_date`, the member the backend's rows carry. */
  function TransactionDateMember(t: UiTransaction): Option<int> { t.transactionDate }

  /** getDashboardStats as written: recency is read from the `date` member, so
      on the backend's rows nothing is recent and nothing moved in or out. */
  function GetDashboardStatsAsWritten(ds: seq<UiDevice>, ts: seq<UiTransaction>, now: int): (r: Stats)
    ensures r.totalItems == Total(ds)
    ensures r.lowStockItems == |WithStatus(ds, "Low Stock")| && r.outOfStockItems == |WithStatus(ds, "Out of Stock")|
    ensures r.normalItems == Total(WithCondition(ds, "Normal")) && r.damagedItems == Total(WithCondition(ds, "Rusak"))
    ensures BackendShaped(ts) ==> r.recentTransactions == 0 && r.itemsIn == 0 && r.itemsOut == 0
  {
    if BackendShaped(ts) then
      AsWrittenNeverRecent(ts, now - WindowMs);
      StatsOf(ds, ts, now - WindowMs, DateMember)
    else
      StatsOf(ds, ts, now - WindowMs, DateMember)
  }

  /** getDashboardStats reading the `transaction_date` member the backend sends:
      the recent count is every transaction dated within the last thirty days
      (or later), and none when none is. */
  function GetDashboardStats(ds: seq<UiDevice>, ts: seq<UiTransaction>, now: int): (r: Stats)
    ensures r.totalItems == Total(ds)
    ensures r.lowStockItems == |WithStatus(ds, "Low Stock")| && r.outOfStockItems == |WithStatus(ds, "Out of Stock")|
    ensures r.normalItems == Total(WithCondition(ds, "Normal")) && r.damagedItems == Total(WithCondition(ds, "Rusak"))
    // in general, the recent count and the in/out sums are taken over the transactions dated from the cutoff on
    ensures r.recentTransactions == |Recent(ts, now - WindowMs, TransactionDateMember)|
    ensures r.itemsIn == QuantityOfKind(Recent(ts, now - WindowMs, TransactionDateMember), "in")
    ensures r.itemsOut == QuantityOfKind(Recent(ts, now - WindowMs, TransactionDateMember), "out")
    ensures NormalOrRusak(ds) ==> r.normalItems + r.damagedItems == r.totalItems
    ensures (forall i :: 0 <= i < |ts| ==> ts[i].transactionDate.Some? && ts[i].transactionDate.value >= now - WindowMs) ==>
      r.recentTransactions == |ts|
    ensures (forall i :: 0 <= i < |ts| ==> ts[i].transactionDate.None? || ts[i].transactionDate.value < now - WindowMs) ==>
      r.recentTransactions == 0 && r.itemsIn == 0 && r.itemsOut == 0
  {
    RecentByTransactionDate(ts, now - WindowMs);
    StatsOf(ds, ts, now - WindowMs, TransactionDateMember)
  }

  /** Read through `transaction_date`: all dated from the cutoff on means all
      are recent, and none means none is. */
  lemma RecentByTransactionDate(ts: seq<UiTransaction>, cutoff: int)
    ensures (forall i :: 0 <= i < |ts| ==> ts[i].transactionDate.Some? && ts[i].transactionDate.value >= cutoff) ==>
      Recent(ts, cutoff, TransactionDateMember) == ts
    ensures (forall i :: 0 <= i < |ts| ==> ts[i].transactionDate.None? || ts[i].transactionDate.value < cutoff) ==>
      Recent(ts, cutoff, TransactionDateMember) == []
  {
    RecentAll(ts, cutoff, TransactionDateMember);
    RecentNone(ts, cutoff, TransactionDateMember);
    if forall i :: 0 <= i < |ts| ==> ts[i].transactionDate.Some? && ts[i].transactionDate.value >= cutoff {
      assert forall i :: 0 <= i < |ts| ==> IsRecent(ts[i], cutoff, TransactionDateMember);
    }
    if forall i :: 0 <= i < |ts| ==> ts[i].transactionDate.None? || ts[i].transactionDate.value < cutoff {
      assert forall i :: 0 <= i < |ts| ==> !IsRecent(ts[i], cutoff, TransactionDateMember);
    }
  }

  /** 'Low Stock' and 'Out of Stock' are different statuses, so no device is
      counted twice. */
  lemma {:induction false} StatusCountsBound(ds: seq<UiDevice>)
    ensures |WithStatus(ds, "Low Stock")| + |WithStatus(ds, "Out of Stock")| <= |ds|
  {
    if ds != [] {
      StatusCountsBound(ds[..|ds| - 1]);
    }
  }

  predicate NormalOrRusak(ds: seq<UiDevice>) {
    forall i :: 0 <= i < |ds| ==> ds[i].condition in {"Normal", "Rusak"}
  }

  /** normalItems + damagedItems == totalItems when every device is 'Normal' or
      'Rusak'. */
  lemma {:induction false} ConditionsPartitionTotal(ds: seq<UiDevice>)
    requires NormalOrRusak(ds)
    ensures Total(WithCondition(ds, "Normal")) + Total(WithCondition(ds, "Rusak")) == Total(ds)
  {
    if ds != [] {
      var init, last := ds[..|ds| - 1], ds[|ds| - 1];
      assert NormalOrRusak(init) by {
        forall i | 0 <= i < |init| ensures init[i].condition in {"Normal", "Rusak"} {
          assert init[i] == ds[i];
        }
      }
      ConditionsPartitionTotal(init);
      TotalAppend(WithCondition(init, "Normal"), if last.condition == "Normal" then [last] else []);
      TotalAppend(WithCondition(init, "Rusak"), if last.condition == "Rusak" then [last] else []);
      assert [last][..0] == [];
    }
  }

  /** A transaction counts as recent iff its transaction date is at or after now
      minus thirty days; there is no upper bound, so future dates count. */
  lemma RecentIff(ts: seq<UiTransaction>, now: int, t: UiTransaction)
    ensures t in Recent(ts, now - WindowMs, TransactionDateMember) <==>
      t in ts && t.transactionDate.Some? && t.transactionDate.value >= now - WindowMs
  {
    RecentKeeps(ts, now - WindowMs, TransactionDateMember, t);
  }

  /** Rows as the backend sends them have no `date` member. */
  predicate BackendShaped(ts: seq<UiTransaction>) {
    forall i :: 0 <= i < |ts| ==> ts[i].date.None?
  }

  /** As written, no transaction from the backend is ever recent: the recent
      count and the in/out sums are always zero, whatever the dates are. */
  lemma {:induction false} AsWrittenNeverRecent(ts: seq<UiTransaction>, cutoff: int)
    requires BackendShaped(ts)
    ensures Recent(ts, cutoff, DateMember) == []
  {
    if ts != [] {
      var init := ts[..|ts| - 1];
      assert BackendShaped(init) by {
        forall i | 0 <= i < |init| ensures init[i].date.None? {
          assert init[i] == ts[i];
        }
      }
      AsWrittenNeverRecent(ts[..|ts| - 1], cutoff);
    }
  }

  /** A concrete case: one 'in' transaction of 3 items dated now. Read through
      `date` nothing is recent; read through `transaction_date` it is. */
  lemma RecentDateCounterexample(now: int)
    ensures var ts := [UiTransaction("in", 3, None, Some(now))];
      && GetDashboardStatsAsWritten([], ts, now).recentTransactions == 0
      && GetDashboardStatsAsWritten([], ts, now).itemsIn == 0
      && GetDashboardStats([], ts, now).recentTransactions == 1
      && GetDashboardStats([], ts, now).itemsIn == 3
  {
    var ts := [UiTransaction("in", 3, None, Some(now))];
    assert BackendShaped(ts);
    RecentAll(ts, now - WindowMs, TransactionDateMember);
    assert Recent(ts, now - WindowMs, TransactionDateMember) == ts;
    assert ts[..0] == [];
    assert OfKind(ts, "in") == ts;
    assert SumQuantity(ts) == 3;
  }

  /** A mixed case: an 'in' of 3 dated now and an 'in' of 5 dated 31 days ago.
      Only the first is recent, so one transaction is counted and 3 items came in. */
  lemma MixedRecencyExample(now: int)
    ensures var ts := [UiTransaction("in", 3, None, Some(now)), UiTransaction("in", 5, None, Some(now - 31 * DayMs))];
      && GetDashboardStats([], ts, now).recentTransactions == 1
      && GetDashboardStats([], ts, now).itemsIn == 3
      && GetDashboardStats([], ts, now).itemsOut == 0
  {
    var newer, older := UiTransaction("in", 3, None, Some(now)), UiTransaction("in", 5, None, Some(now - 31 * DayMs));
    var ts := [newer, older];
    var recent := Recent(ts, now - WindowMs, TransactionDateMember);
    assert ts[..1] == [newer];
    assert [newer][..0] == [];
    assert IsRecent(newer, now - WindowMs, TransactionDateMember);
    assert !IsRecent(older, now - WindowMs, TransactionDateMember);
    assert Recent([newer], now - WindowMs, TransactionDateMember) == [newer];
    assert recent == [newer];
    QuantityOfKindSnoc([], newer, "in");
    QuantityOfKindSnoc([], newer, "out");
    assert [] + [newer] == [newer];
  }
}
