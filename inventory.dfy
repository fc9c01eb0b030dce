/** pages/Inventory.tsx: the search filter over the device list, the list
    updates after a delete or an edit, and the category-id lookup on save.
    The search as written reads the rows' `category` member, which the
    backend's rows do not carry; `FilterDevices` reads the category name they
    do carry (`category_name`). */
module Inventory {
  import opened Common
  import opened Store
  import opened DevicesApi
  import opened Ui

  /** `toLowerCase` on the ASCII letters. */
  function LowerChar(c: char): (r: char)
    ensures 'A' <= c <= 'Z' ==> r == (c as int + 32) as char
    ensures !('A' <= c <= 'Z') ==> r == c
  {
    if 'A' <= c <= 'Z' then (c as int + 32) as char else c
  }

  function Lower(s: string): (r: string)
    ensures |r| == |s|
    ensures forall i :: 0 <= i < |s| ==> r[i] == LowerChar(s[i])
  {
    if s == [] then [] else [LowerChar(s[0])] + Lower(s[1..])
  }

  /** `sub` occurs in `s` starting at index `i`. */
  predicate OccursAt(s: string, sub: string, i: int) {
    0 <= i && i + |sub| <= |s| && s[i..i + |sub|] == sub
  }

  /** `s.includes(sub)` */
  predicate Includes(s: string, sub: string) {
    exists i | 0 <= i <= |s| - |sub| :: OccursAt(s, sub, i)
  }

  /** The search predicate: the lower-cased term occurs in the lower-cased name,
      category name or brand. */
  predicate MatchesSearch(d: UiDevice, term: string) {
    var t := Lower(term);
    Includes(Lower(d.name), t) || Includes(Lower(d.categoryName), t) || Includes(Lower(d.brand), t)
  }

  /** `filteredDevices` */
  function FilterDevices(ds: seq<UiDevice>, term: string): (r: seq<UiDevice>)
    ensures |r| <= |ds|
    ensures forall i :: 0 <= i < |r| ==> MatchesSearch(r[i], term)
  {
    if ds == [] then []
    else
      var rest := FilterDevices(ds[1..], term);
      if MatchesSearch(ds[0], term) then [ds[0]] + rest else rest
  }

  /** `a` is `b` with some elements left out, the rest in their order. */
  ghost predicate IsSubsequence<T>(a: seq<T>, b: seq<T>)
    decreases |b|
  {
    a == [] || (b != [] && ((a[0] == b[0] && IsSubsequence(a[1..], b[1..])) || IsSubsequence(a, b[1..])))
  }

  /** The filtered list keeps the devices' order and drops exactly the devices
      that do not match. */
  lemma {:induction false} FilterDevicesSpec(ds: seq<UiDevice>, term: string, d: UiDevice)
    ensures IsSubsequence(FilterDevices(ds, term), ds)
    ensures d in FilterDevices(ds, term) <==> d in ds && MatchesSearch(d, term)
  {
    if ds != [] {
      FilterDevicesSpec(ds[1..], term, d);
      assert ds == [ds[0]] + ds[1..];
      var rest := FilterDevices(ds[1..], term);
      if MatchesSearch(ds[0], term) {
        assert ([ds[0]] + rest)[1..] == rest;
      }
    }
  }

  /** The empty string is in every string, so an empty search keeps every device. */
  lemma {:induction false} EmptySearchKeepsAll(ds: seq<UiDevice>)
    ensures FilterDevices(ds, "") == ds
  {
    if ds != [] {
      EmptySearchKeepsAll(ds[1..]);
      assert OccursAt(Lower(ds[0].name), Lower(""), 0);
    }
  }

  /** One device under the search as written: the name is tried first, and when
      it does not match, `device.category.toLowerCase()` throws (None) on a row
      without a `category` member. */
  function MatchesAsWritten(d: UiDevice, term: string): (r: Option<bool>)
    ensures r.None? <==> !Includes(Lower(d.name), Lower(term)) && d.category.None?
  {
    var t := Lower(term);
    if Includes(Lower(d.name), t) then Some(true)
    else
      match d.category
      case None => None
      case Some(c) => Some(Includes(Lower(c), t) || Includes(Lower(d.brand), t))
  }

  /** `filteredDevices` as written; None when the filter throws. */
  function FilterDevicesAsWritten(ds: seq<UiDevice>, term: string): (r: Option<seq<UiDevice>>)
    // the filter throws iff some device throws
    ensures r.None? <==> exists i :: 0 <= i < |ds| && MatchesAsWritten(ds[i], term).None?
    ensures r.Some? ==> forall k :: 0 <= k < |r.value| ==> r.value[k] in ds && MatchesAsWritten(r.value[k], term) == Some(true)
  {
    if ds == [] then Some([])
    else
      match MatchesAsWritten(ds[0], term)
      case None => None
      case Some(keep) =>
        match FilterDevicesAsWritten(ds[1..], term)
        case None => None
        case Some(rest) => Some(if keep then [ds[0]] + rest else rest)
  }

  /** As written, on the backend's rows any search that some device's name does
      not contain throws, so the inventory page cannot filter by category or
      brand at all. */
  lemma {:induction false} AsWrittenSearchThrows(ds: seq<UiDevice>, term: string, i: int)
    requires BackendRows(ds)
    requires 0 <= i < |ds| && !Includes(Lower(ds[i].name), Lower(term))
    ensures FilterDevicesAsWritten(ds, term).None?
  {
    if i > 0 {
      assert BackendRows(ds[1..]) by {
        forall k | 0 <= k < |ds[1..]| ensures ds[1..][k].category.None? {
          assert ds[1..][k] == ds[k + 1];
        }
      }
      assert ds[1..][i - 1] == ds[i];
      AsWrittenSearchThrows(ds[1..], term, i - 1);
    }
  }

  /** On any listing the devices endpoint sends, a search that some device's
      name does not contain throws. */
  lemma ListingSearchThrows(t: Tables, rows: seq<DeviceRow>, term: string, i: int)
    requires Integrity(t)
    requires forall k :: 0 <= k < |rows| ==> rows[k] in ListDevices(t.devices, t.categories)
    requires 0 <= i < |rows| && !Includes(Lower(rows[i].device.name), Lower(term))
    ensures FilterDevicesAsWritten(ReceivedRows(rows), term).None?
  {
    ReceivedListing(t, rows);
    AsWrittenSearchThrows(ReceivedRows(rows), term, i);
  }

  /** `devices.filter(d => d.id !== id)` after a confirmed delete. */
  function RemoveById(ds: seq<UiDevice>, id: string): (r: seq<UiDevice>)
    ensures |r| <= |ds|
    ensures forall i :: 0 <= i < |r| ==> r[i].id != id
  {
    if ds == [] then []
    else
      var rest := RemoveById(ds[1..], id);
      if ds[0].id != id then [ds[0]] + rest else rest
  }

  /** A delete removes exactly the devices with that id; the others stay, in order. */
  lemma {:induction false} RemoveByIdSpec(ds: seq<UiDevice>, id: string, d: UiDevice)
    ensures IsSubsequence(RemoveById(ds, id), ds)
    ensures d in RemoveById(ds, id) <==> d in ds && d.id != id
  {
    if ds != [] {
      RemoveByIdSpec(ds[1..], id, d);
      assert ds == [ds[0]] + ds[1..];
      var rest := RemoveById(ds[1..], id);
      if ds[0].id != id {
        assert ([ds[0]] + rest)[1..] == rest;
      }
    }
  }

  /** `devices.map(d => d.id === saved.id ? saved : d)` after an edit. */
  function ReplaceById(ds: seq<UiDevice>, saved: UiDevice): (r: seq<UiDevice>)
    ensures |r| == |ds|
  {
    if ds == [] then []
    else [if ds[0].id == saved.id then saved else ds[0]] + ReplaceById(ds[1..], saved)
  }

  /** An edit replaces only the devices with the saved device's id: every other
      position holds what it held, and a position with that id holds the saved
      device. */
  lemma {:induction false} ReplaceByIdSpec(ds: seq<UiDevice>, saved: UiDevice)
    ensures forall i :: 0 <= i < |ds| && ds[i].id != saved.id ==> ReplaceById(ds, saved)[i] == ds[i]
    ensures forall i :: 0 <= i < |ds| && ds[i].id == saved.id ==> ReplaceById(ds, saved)[i] == saved
    ensures RemoveById(ReplaceById(ds, saved), saved.id) == RemoveById(ds, saved.id)
  {
    if ds != [] {
      ReplaceByIdSpec(ds[1..], saved);
      var r := ReplaceById(ds, saved);
      assert r[1..] == ReplaceById(ds[1..], saved);
      forall i | 1 <= i < |ds| ensures ds[i] == ds[1..][i - 1] && r[i] == r[1..][i - 1] {
      }
    }
  }

  /** A category record as the page holds it. */
  datatype UiCategory = UiCategory(id: int, name: string)

  /** `categories.find(c => c.name === name)?.id || 1`: the id of the first
      category with that name, or 1 when there is none or its id is 0. */
  function ResolveCategoryId(categories: seq<UiCategory>, name: string): (id: int)
    ensures id != 0
    ensures (forall i :: 0 <= i < |categories| ==> categories[i].name != name) ==> id == 1
    ensures forall i :: (0 <= i < |categories| && categories[i].name == name && categories[i].id != 0 &&
      (forall j :: 0 <= j < i ==> categories[j].name != name)) ==> id == categories[i].id
    // `|| 1` also replaces a first match whose id is 0
    ensures forall i :: (0 <= i < |categories| && categories[i].name == name && categories[i].id == 0 &&
      (forall j :: 0 <= j < i ==> categories[j].name != name)) ==> id == 1
  {
    if categories == [] then 1
    else if categories[0].name == name then (if categories[0].id != 0 then categories[0].id else 1)
    else ResolveCategoryId(categories[1..], name)
  }
}
