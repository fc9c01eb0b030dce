/** pages/Dashboard.tsx: the per-category totals behind the bar chart, built by
    a reduce that finds the entry for each device's category and either adds
    to it or appends a new one; and the five-item recent-transactions list.
    The reduce as written groups by the rows' `category` member, which the
    backend's rows do not carry; `CategoryData` and `ComputeCategoryData` group
    by the category name the rows do carry (`category_name`). */
module DashboardPage {
  import opened Common
  import opened Store
  import opened DevicesApi
  import opened Ui

  datatype CategoryEntry = CategoryEntry(name: string, quantity: int)

  /** The category names of `ds`, each once, in order of first occurrence. */
  function Names(ds: seq<UiDevice>): seq<string> {
    if ds == [] then []
    else
      var prefix := Names(ds[..|ds| - 1]);
      if ds[|ds| - 1].categoryName in prefix then prefix else prefix + [ds[|ds| - 1].categoryName]
  }

  /** The summed quantity of the devices in category `name`. */
  function SumFor(ds: seq<UiDevice>, name: string): int {
    if ds == [] then 0
    else SumFor(ds[..|ds| - 1], name) + (if ds[|ds| - 1].categoryName == name then ds[|ds| - 1].quantity else 0)
  }

  /** What the chart should show: one entry per distinct category, in order of
      first occurrence, holding that category's summed quantity. */
  function CategoryData(ds: seq<UiDevice>): seq<CategoryEntry> {
    var names := Names(ds);
    seq(|names|, i requires 0 <= i < |names| => CategoryEntry(names[i], SumFor(ds, names[i])))
  }

  predicate Distinct(names: seq<string>) {
    forall i, j :: 0 <= i < j < |names| ==> names[i] != names[j]
  }

  /** No category name appears twice. */
  lemma {:induction false} NamesDistinct(ds: seq<UiDevice>)
    ensures Distinct(Names(ds))
  {
    if ds != [] {
      NamesDistinct(ds[..|ds| - 1]);
    }
  }

  /** A name is listed iff some device has that category. */
  lemma {:induction false} NamesCover(ds: seq<UiDevice>, name: string)
    ensures name in Names(ds) <==> exists i :: 0 <= i < |ds| && ds[i].categoryName == name
  {
    if ds != [] {
      var init := ds[..|ds| - 1];
      NamesCover(init, name);
      if exists i :: 0 <= i < |init| && init[i].categoryName == name {
        var i :| 0 <= i < |init| && init[i].categoryName == name;
        assert ds[i] == init[i];
      }
      if exists i :: 0 <= i < |ds| && ds[i].categoryName == name {
        var i :| 0 <= i < |ds| && ds[i].categoryName == name;
        if i < |init| {
          assert init[i] == ds[i];
        }
      }
    }
  }

  /** Names are listed in order of first occurrence: the names of any prefix of
      the devices are a prefix of the names of all of them, so a name seen
      earlier is listed earlier. */
  lemma {:induction false} NamesPrefix(ds: seq<UiDevice>, k: int)
    requires 0 <= k <= |ds|
    ensures Names(ds[..k]) <= Names(ds)
  {
    if k < |ds| {
      var init := ds[..|ds| - 1];
      assert init[..k] == ds[..k];
      NamesPrefix(init, k);
    } else {
      assert ds[..k] == ds;
    }
  }

  /** A category no device has sums to zero. */
  lemma {:induction false} SumForAbsent(ds: seq<UiDevice>, name: string)
    requires name !in Names(ds)
    ensures SumFor(ds, name) == 0
  {
    if ds != [] {
      var init := ds[..|ds| - 1];
      assert Names(init) <= Names(ds);
      SumForAbsent(init, name);
    }
  }

  /** Adding a device of a listed category adds its quantity to that entry. */
  lemma StepFound(ds: seq<UiDevice>, d: UiDevice, j: int)
    requires 0 <= j < |Names(ds)| && Names(ds)[j] == d.categoryName
    ensures CategoryData(ds + [d]) ==
      CategoryData(ds)[j := CategoryEntry(d.categoryName, CategoryData(ds)[j].quantity + d.quantity)]
  {
    assert (ds + [d])[..|ds|] == ds;
    NamesDistinct(ds);
    var names := Names(ds);
    assert Names(ds + [d]) == names;
    var lhs := CategoryData(ds + [d]);
    var rhs := CategoryData(ds)[j := CategoryEntry(d.categoryName, CategoryData(ds)[j].quantity + d.quantity)];
    assert |lhs| == |rhs|;
    forall i | 0 <= i < |names|
      ensures lhs[i] == rhs[i]
    {
      assert SumFor(ds + [d], names[i]) ==
        SumFor(ds, names[i]) + (if d.categoryName == names[i] then d.quantity else 0);
      if i != j {
        assert names[i] != names[j];
      }
    }
  }

  /** Adding a device of a new category appends an entry holding its quantity. */
  lemma StepNew(ds: seq<UiDevice>, d: UiDevice)
    requires d.categoryName !in Names(ds)
    ensures CategoryData(ds + [d]) == CategoryData(ds) + [CategoryEntry(d.categoryName, d.quantity)]
  {
    assert (ds + [d])[..|ds|] == ds;
    SumForAbsent(ds, d.categoryName);
    var names := Names(ds + [d]);
    assert names == Names(ds) + [d.categoryName];
    forall i | 0 <= i < |Names(ds)|
      ensures SumFor(ds + [d], names[i]) == SumFor(ds, names[i])
    {
      assert names[i] == Names(ds)[i];
      assert names[i] != d.categoryName;
    }
  }

  /** The reduce of the page, grouping by the category name: for each device,
      find the entry with its category (`acc.find`), add the quantity to it, or
      append a new entry. */
  method ComputeCategoryData(devices: seq<UiDevice>) returns (acc: seq<CategoryEntry>)
    ensures acc == CategoryData(devices)
  {
    acc := [];
    var k := 0;
    while k < |devices|
      invariant 0 <= k <= |devices|
      invariant acc == CategoryData(devices[..k])
    {
      var device := devices[k];
      var j := 0;
      while j < |acc| && acc[j].name != device.categoryName
        invariant 0 <= j <= |acc|
        invariant forall m :: 0 <= m < j ==> acc[m].name != device.categoryName
      {
        j := j + 1;
      }
      assert devices[..k + 1] == devices[..k] + [device];
      if j < |acc| {
        StepFound(devices[..k], device, j);
        acc := acc[j := CategoryEntry(acc[j].name, acc[j].quantity + device.quantity)];
      } else {
        assert forall m :: 0 <= m < |acc| ==> acc[m].name == Names(devices[..k])[m];
        StepNew(devices[..k], device);
        acc := acc + [CategoryEntry(device.categoryName, device.quantity)];
      }
      k := k + 1;
    }
    assert devices[..k] == devices;
  }

  /** The summed quantity of the entries. */
  function TotalOf(es: seq<CategoryEntry>): int {
    if es == [] then 0 else TotalOf(es[..|es| - 1]) + es[|es| - 1].quantity
  }

  lemma {:induction false} TotalOfUpdate(es: seq<CategoryEntry>, j: int, e: CategoryEntry)
    requires 0 <= j < |es|
    ensures TotalOf(es[j := e]) == TotalOf(es) - es[j].quantity + e.quantity
  {
    var last := |es| - 1;
    if j < last {
      TotalOfUpdate(es[..last], j, e);
      assert es[j := e][..last] == es[..last][j := e];
    } else {
      assert es[j := e][..last] == es[..last];
    }
  }

  lemma TotalOfSnoc(es: seq<CategoryEntry>, e: CategoryEntry)
    ensures TotalOf(es + [e]) == TotalOf(es) + e.quantity
  {
    assert (es + [e])[..|es + [e]| - 1] == es;
  }

  /** The entries' quantities add up to the total quantity of all devices, and
      no devices give no entries. */
  lemma {:induction false} CategoryTotalsSum(ds: seq<UiDevice>)
    ensures TotalOf(CategoryData(ds)) == Total(ds)
    ensures ds == [] ==> CategoryData(ds) == []
  {
    if ds != [] {
      var init, d := ds[..|ds| - 1], ds[|ds| - 1];
      assert ds == init + [d];
      CategoryTotalsSum(init);
      if d.categoryName in Names(init) {
        var j :| 0 <= j < |Names(init)| && Names(init)[j] == d.categoryName;
        StepFound(init, d, j);
        TotalOfUpdate(CategoryData(init), j, CategoryEntry(d.categoryName, CategoryData(init)[j].quantity + d.quantity));
      } else {
        StepNew(init, d);
        TotalOfSnoc(CategoryData(init), CategoryEntry(d.categoryName, d.quantity));
      }
    }
  }

  /** An entry of the chart as written, keyed by the `category` member
      (None for JavaScript's `undefined`). */
  datatype ChartEntry = ChartEntry(name: Option<string>, quantity: int)

  /** `acc.find(c => c.name === name)`: the index of the first entry with that
      name, or `|acc|` when there is none. */
  function FindEntry(acc: seq<ChartEntry>, name: Option<string>): (j: int)
    ensures 0 <= j <= |acc|
    ensures j < |acc| ==> acc[j].name == name
    ensures forall m :: 0 <= m < j ==> acc[m].name != name
  {
    if acc == [] then 0
    else if acc[0].name == name then 0
    else 1 + FindEntry(acc[1..], name)
  }

  /** The reduce as written, keyed by each row's `category` member. */
  function CategoryDataAsWritten(ds: seq<UiDevice>): (r: seq<ChartEntry>)
    ensures |r| <= |ds|
    ensures ds != [] ==> r != []
    // no two entries share a key
    ensures forall a, b :: 0 <= a < b < |r| ==> r[a].name != r[b].name
  {
    if ds == [] then []
    else
      var acc, d := CategoryDataAsWritten(ds[..|ds| - 1]), ds[|ds| - 1];
      var j := FindEntry(acc, d.category);
      if j < |acc| then acc[j := ChartEntry(acc[j].name, acc[j].quantity + d.quantity)]
      else acc + [ChartEntry(d.category, d.quantity)]
  }

  /** As written, on the backend's rows the chart has a single entry named
      `undefined` holding the quantity of every device, whatever their categories. */
  lemma {:induction false} AsWrittenSingleEntry(ds: seq<UiDevice>)
    requires BackendRows(ds)
    ensures CategoryDataAsWritten(ds) == if ds == [] then [] else [ChartEntry(None, Total(ds))]
  {
    if ds != [] {
      var init := ds[..|ds| - 1];
      assert BackendRows(init) by {
        forall i | 0 <= i < |init| ensures init[i].category.None? {
          assert init[i] == ds[i];
        }
      }
      AsWrittenSingleEntry(init);
    }
  }

  /** On any listing the devices endpoint sends, the chart as written is that
      single entry, while the corrected reduce holds one entry per category. */
  lemma ListingChartsOneEntry(t: Tables, rows: seq<DeviceRow>)
    requires Integrity(t)
    requires forall i :: 0 <= i < |rows| ==> rows[i] in ListDevices(t.devices, t.categories)
    ensures var ds := ReceivedRows(rows);
      CategoryDataAsWritten(ds) == if rows == [] then [] else [ChartEntry(None, Total(ds))]
  {
    ReceivedListing(t, rows);
    AsWrittenSingleEntry(ReceivedRows(rows));
  }

  /** A concrete case: a laptop (2) and a printer (3). As written the chart shows
      one entry of 5; grouped by category name it shows the two categories. */
  lemma CategoryChartCounterexample()
    ensures var ds := [UiDevice("D1", "ThinkPad", None, "Laptop", "Lenovo", 2, "In Stock", "Normal"),
                       UiDevice("D2", "LaserJet", None, "Printer", "HP", 3, "In Stock", "Normal")];
      && CategoryDataAsWritten(ds) == [ChartEntry(None, 5)]
      && CategoryData(ds) == [CategoryEntry("Laptop", 2), CategoryEntry("Printer", 3)]
  {
    var d1 := UiDevice("D1", "ThinkPad", None, "Laptop", "Lenovo", 2, "In Stock", "Normal");
    var d2 := UiDevice("D2", "LaserJet", None, "Printer", "HP", 3, "In Stock", "Normal");
    var ds := [d1, d2];
    assert ds[..1] == [d1] && [d1][..0] == [];
    AsWrittenSingleEntry(ds);
    assert Names([d1]) == ["Laptop"];
    assert Names(ds) == ["Laptop", "Printer"];
    assert SumFor([d1], "Laptop") == 2 && SumFor([d1], "Printer") == 0;
    assert SumFor(ds, "Laptop") == 2 && SumFor(ds, "Printer") == 3;
  }

  /** `transactions.slice(0, 5)`: the first five, or all when there are fewer. */
  function RecentList<T>(ts: seq<T>): (r: seq<T>)
    ensures |r| <= 5 && r <= ts
    ensures |ts| >= 5 ==> |r| == 5
    ensures |ts| < 5 ==> r == ts
  {
    if |ts| < 5 then ts else ts[..5]
  }
}
