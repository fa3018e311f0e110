/** The menu, plant and vendor data that the order services read, and the checks they run before a transaction. */
module Catalog {
  import opened Wrappers
  import opened OrderTypes
  import opened Stock

  const HOUR := 3600
  const DAY := 86400

  datatype MenuItem = MenuItem(vendor: nat, price: int, archived: bool)

  datatype VendorInfo = VendorInfo(cutoffHour: int, preorderWindowDays: int)

  datatype Catalog = Catalog(menu: map<nat, MenuItem>, plants: map<nat, seq<nat>>, vendors: map<nat, VendorInfo>)

  datatype OrderError =
    | EmptyOrder | QtyNotPositive | ItemNotFound | MultiVendor | VendorPlantMismatch | VendorNotFound
    | CutoffPassed | OutsidePreorderWindow | OrderNotFound | Forbidden | InvalidTransition
    | StockFailure(stock: StockError) | InvalidCapacity

  datatype PlaceItem = PlaceItem(item: nat, qty: int)

  datatype PlaceInput = PlaceInput(user: nat, plant: nat, date: int, items: seq<PlaceItem>, notes: string)

  datatype Resolved = Resolved(vendor: Option<nat>, total: int, lines: seq<Line>)

  /** The vendor's hour on the day before the supply date; instants are seconds and days start at UTC midnight. */
  function CutoffAt(v: VendorInfo, date: int): int {
    (date - 1) * DAY + v.cutoffHour * HOUR
  }

  function Serves(cat: Catalog, vendor: nat, plant: nat): bool {
    vendor in cat.plants && plant in cat.plants[vendor]
  }

  /** Why an item cannot follow the items before it, checked in the order of the code. */
  function ItemError(menu: map<nat, MenuItem>, vendor: Option<nat>, it: PlaceItem): Option<OrderError> {
    if it.qty <= 0 then Some(QtyNotPositive)
    else if it.item !in menu then Some(ItemNotFound)
    else if vendor.Some? && vendor.value != menu[it.item].vendor then Some(MultiVendor)
    else None
  }

  function LineOf(menu: map<nat, MenuItem>, it: PlaceItem): Line
    requires it.item in menu
  {
    Line(it.item, it.qty, menu[it.item].price)
  }

  /** Every item has a positive quantity and is on the menu of the one vendor. */
  ghost predicate OneVendor(menu: map<nat, MenuItem>, items: seq<PlaceItem>, vendor: Option<nat>) {
    forall i | 0 <= i < |items| ::
      items[i].qty > 0 && items[i].item in menu && vendor == Some(menu[items[i].item].vendor)
  }

  ghost predicate LinesFor(menu: map<nat, MenuItem>, items: seq<PlaceItem>, lines: seq<Line>) {
    && |lines| == |items|
    && forall i | 0 <= i < |items| ::
         && items[i].item in menu
         && lines[i].item == items[i].item && lines[i].qty == items[i].qty && lines[i].price == menu[items[i].item].price
  }

  /** Units of one item over all that is asked for. */
  function UnitsOf(items: seq<PlaceItem>, item: nat): int {
    if items == [] then 0
    else UnitsOf(items[..|items| - 1], item) + if items[|items| - 1].item == item then items[|items| - 1].qty else 0
  }

  lemma {:induction false} UnitsAreQty(menu: map<nat, MenuItem>, items: seq<PlaceItem>, lines: seq<Line>, item: nat)
    requires LinesFor(menu, items, lines)
    ensures QtyOf(lines, item) == UnitsOf(items, item)
  {
    if items != [] { UnitsAreQty(menu, items[..|items| - 1], lines[..|lines| - 1], item); }
  }

  /** The vendor that item i has to be of: the fixed one, or that of the first item. */
  function VendorSoFar(menu: map<nat, MenuItem>, start: Option<nat>, items: seq<PlaceItem>, i: nat): Option<nat> {
    if start.Some? || i == 0 || i > |items| || items[0].item !in menu then start else Some(menu[items[0].item].vendor)
  }

  /** Item i is the first that does not fit, and why: quantity before menu before vendor. */
  ghost predicate FirstMisfit(menu: map<nat, MenuItem>, start: Option<nat>, items: seq<PlaceItem>, i: nat, e: OrderError) {
    && i < |items| && OneVendor(menu, items[..i], VendorSoFar(menu, start, items, i))
    && var it := items[i];
       if it.qty <= 0 then e == QtyNotPositive
       else if it.item !in menu then e == ItemNotFound
       else VendorSoFar(menu, start, items, i).Some? && VendorSoFar(menu, start, items, i).value != menu[it.item].vendor && e == MultiVendor
  }

  /** The items resolved one by one: the first that does not fit ends with its error. */
  function Resolution(menu: map<nat, MenuItem>, start: Option<nat>, items: seq<PlaceItem>): Result<Resolved, OrderError> {
    if items == [] then Success(Resolved(start, 0, []))
    else
      match Resolution(menu, start, items[..|items| - 1])
      case Failure(e) => Failure(e)
      case Success(out) =>
        var it := items[|items| - 1];
        match ItemError(menu, out.vendor, it)
        case Some(e) => Failure(e)
        case None =>
          var line := LineOf(menu, it);
          Success(Resolved(Some(menu[it.item].vendor), out.total + line.price * line.qty, out.lines + [line]))
  }

  lemma OneVendorSnoc(menu: map<nat, MenuItem>, items: seq<PlaceItem>, it: PlaceItem, vendor: Option<nat>)
    requires OneVendor(menu, items, vendor) && it.qty > 0 && it.item in menu && vendor == Some(menu[it.item].vendor)
    ensures OneVendor(menu, items + [it], vendor)
  {
  }

  lemma LinesSnoc(menu: map<nat, MenuItem>, items: seq<PlaceItem>, lines: seq<Line>, it: PlaceItem)
    requires LinesFor(menu, items, lines) && it.item in menu
    ensures LinesFor(menu, items + [it], lines + [LineOf(menu, it)])
    ensures TotalOf(lines + [LineOf(menu, it)]) == TotalOf(lines) + menu[it.item].price * it.qty
    ensures AllPositive(lines) && it.qty > 0 ==> AllPositive(lines + [LineOf(menu, it)])
  {
    assert (lines + [LineOf(menu, it)])[..|lines|] == lines;
  }

  ghost predicate ResolvedOk(menu: map<nat, MenuItem>, start: Option<nat>, items: seq<PlaceItem>, out: Resolved) {
    && OneVendor(menu, items, out.vendor)
    && (start.Some? || items == [] ==> out.vendor == start)
    && LinesFor(menu, items, out.lines)
    && out.total == TotalOf(out.lines)
    && AllPositive(out.lines)
  }

  lemma OneMoreItem(menu: map<nat, MenuItem>, start: Option<nat>, items: seq<PlaceItem>, out: Resolved, it: PlaceItem)
    requires ResolvedOk(menu, start, items, out) && ItemError(menu, out.vendor, it).None?
    ensures it.item in menu
    ensures ResolvedOk(menu, start, items + [it],
                       Resolved(Some(menu[it.item].vendor), out.total + menu[it.item].price * it.qty, out.lines + [LineOf(menu, it)]))
  {
    LinesSnoc(menu, items, out.lines, it);
    if items != [] { assert items[0].qty > 0 && out.vendor == Some(menu[items[0].item].vendor); }
    OneVendorSnoc(menu, items, it, Some(menu[it.item].vendor));
  }

  /** The resolved lines carry the menu's prices, their exact total, and come from one vendor (the fixed one, if any). */
  lemma {:induction false} ResolutionMeans(menu: map<nat, MenuItem>, start: Option<nat>, items: seq<PlaceItem>)
    requires Resolution(menu, start, items).Success?
    ensures ResolvedOk(menu, start, items, Resolution(menu, start, items).value)
  {
    if items != [] {
      var init, it := items[..|items| - 1], items[|items| - 1];
      ResolutionMeans(menu, start, init);
      OneMoreItem(menu, start, init, Resolution(menu, start, init).value, it);
      assert items == init + [it];
    }
  }

  /** Resolution succeeds on every list of positive quantities from one vendor. */
  lemma {:induction false} ResolutionSucceeds(menu: map<nat, MenuItem>, start: Option<nat>, items: seq<PlaceItem>, v: Option<nat>)
    requires OneVendor(menu, items, v) && (start.Some? ==> v == start)
    ensures Resolution(menu, start, items).Success?
  {
    if items != [] {
      var init := items[..|items| - 1];
      ResolutionSucceeds(menu, start, init, v);
      ResolutionMeans(menu, start, init);
      if init != [] { assert items[0] == init[0]; }
    }
  }

  /** Resolution fails with the reason of the first item that does not fit. */
  lemma {:induction false} ResolutionFails(menu: map<nat, MenuItem>, start: Option<nat>, items: seq<PlaceItem>)
    requires Resolution(menu, start, items).Failure?
    ensures exists i: nat :: FirstMisfit(menu, start, items, i, Resolution(menu, start, items).error)
  {
    var e, n := Resolution(menu, start, items).error, |items| - 1;
    var init := items[..n];
    if Resolution(menu, start, init).Failure? {
      ResolutionFails(menu, start, init);
      var i: nat :| FirstMisfit(menu, start, init, i, e);
      assert init[..i] == items[..i];
      assert FirstMisfit(menu, start, items, i, e);
    } else {
      ResolutionMeans(menu, start, init);
      var out := Resolution(menu, start, init).value;
      if start.None? && n > 0 { assert init[0] == items[0] && out.vendor == Some(menu[init[0].item].vendor); }
      assert FirstMisfit(menu, start, items, n, e);
    }
  }

  lemma {:induction false} ResolutionFailsEarly(menu: map<nat, MenuItem>, start: Option<nat>, items: seq<PlaceItem>, n: nat)
    requires n <= |items| && Resolution(menu, start, items[..n]).Failure?
    ensures Resolution(menu, start, items) == Resolution(menu, start, items[..n])
  {
    if n == |items| {
      assert items[..n] == items;
    } else {
      var init := items[..|items| - 1];
      assert init[..n] == items[..n];
      ResolutionFailsEarly(menu, start, init, n);
    }
  }

  /** The resolution loop of Place (no vendor fixed yet) and of Modify (the order's vendor is fixed). */
  method ResolveItems(menu: map<nat, MenuItem>, start: Option<nat>, items: seq<PlaceItem>) returns (r: Result<Resolved, OrderError>)
    ensures r == Resolution(menu, start, items)
    ensures r.Failure? ==> exists i: nat :: FirstMisfit(menu, start, items, i, r.error)
  {
    if Resolution(menu, start, items).Failure? { ResolutionFails(menu, start, items); }
    var out := Resolved(start, 0, []);
    for i := 0 to |items|
      invariant Resolution(menu, start, items[..i]) == Success(out)
    {
      assert items[..i + 1][..i] == items[..i];
      var it := items[i];
      var e := ItemError(menu, out.vendor, it);
      if e.Some? {
        ResolutionFailsEarly(menu, start, items, i + 1);
        return Failure(e.value);
      }
      var line := LineOf(menu, it);
      out := Resolved(Some(menu[it.item].vendor), out.total + line.price * line.qty, out.lines + [line]);
    }
    assert items[..|items|] == items;
    return Success(out);
  }

  /** The vendor must serve the plant, and the supply date must be before its cutoff and inside the preorder window. */
  function PlacementError(cat: Catalog, vendor: nat, plant: nat, date: int, now: int): Option<OrderError> {
    if !Serves(cat, vendor, plant) then Some(VendorPlantMismatch)
    else if vendor !in cat.vendors then Some(VendorNotFound)
    else if now >= CutoffAt(cat.vendors[vendor], date) then Some(CutoffPassed)
    else if date > now / DAY + cat.vendors[vendor].preorderWindowDays then Some(OutsidePreorderWindow)
    else None
  }
}
