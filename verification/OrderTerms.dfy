/** What callers of the order services are promised, told on inputs and rows alone. */
module OrderTerms {
  import opened Wrappers
  import opened OrderTypes
  import opened Stock
  import opened Catalog
  import opened Reorder

  /** The row of the item sells and has the units left. */
  ghost predicate HasRoom(s: Supplies, date: int, item: nat, units: int) {
    Key(item, date) in s && !s[Key(item, date)].soldOut && units <= s[Key(item, date)].remain
  }

  /** The instant of the vendor's cutoff: its hour, in seconds, on the day before the supply date. */
  ghost predicate ClosesAt(cat: Catalog, vendor: nat, date: int, at: int) {
    vendor in cat.vendors && at == (date - 1) * 86400 + cat.vendors[vendor].cutoffHour * 3600
  }

  ghost predicate ServesPlant(cat: Catalog, vendor: nat, plant: nat) {
    vendor in cat.plants && plant in cat.plants[vendor]
  }

  // ---------------------------------------------------------------- placing

  /** The vendor takes the order now: it sells all items, serves the plant, has not closed, and takes orders that early. */
  ghost predicate TakenBy(cat: Catalog, now: int, input: PlaceInput, v: nat) {
    && OneVendor(cat.menu, input.items, Some(v))
    && ServesPlant(cat, v, input.plant)
    && (exists at :: ClosesAt(cat, v, input.date, at) && now < at)
    && input.date <= now / 86400 + cat.vendors[v].preorderWindowDays
  }

  ghost predicate MayPlace(cat: Catalog, now: int, s: Supplies, input: PlaceInput) {
    && input.items != []
    && (exists v: nat :: TakenBy(cat, now, input, v))
    && forall i | 0 <= i < |input.items| :: HasRoom(s, input.date, input.items[i].item, UnitsOf(input.items, input.items[i].item))
  }

  /** The new row: the caller's user, plant, date and notes, the vendor of the items, one line per item at the menu's price. */
  ghost predicate PlacedRow(cat: Catalog, input: PlaceInput, o: Order) {
    && o.user == input.user && o.plant == input.plant && o.date == input.date && o.notes == input.notes
    && o.status == Placed && o.readyAt == None
    && OneVendor(cat.menu, input.items, Some(o.vendor)) && ClosesAt(cat, o.vendor, o.date, o.cutoffAt)
    && LinesFor(cat.menu, input.items, o.lines) && o.total == TotalOf(o.lines)
  }

  /** Why the vendor does not take the order, the plant before the cutoff before the preorder window. */
  ghost predicate VendorRefuses(cat: Catalog, now: int, input: PlaceInput, v: nat, e: OrderError) {
    && OneVendor(cat.menu, input.items, Some(v))
    && if !ServesPlant(cat, v, input.plant) then e == VendorPlantMismatch
       else if v !in cat.vendors then e == VendorNotFound
       else if exists at :: ClosesAt(cat, v, input.date, at) && at <= now then e == CutoffPassed
       else e == OutsidePreorderWindow && input.date > now / 86400 + cat.vendors[v].preorderWindowDays
  }

  ghost predicate PlaceRefused(cat: Catalog, now: int, input: PlaceInput, e: OrderError) {
    if input.items == [] then e == EmptyOrder
    else (exists i: nat :: FirstMisfit(cat.menu, None, input.items, i, e)) || (exists v: nat :: VendorRefuses(cat, now, input, v, e))
  }

  // ---------------------------------------------------------------- an order of one's own

  ghost predicate Owns(orders: seq<Order>, id: nat, user: nat, status: Status) {
    id < |orders| && orders[id].user == user && orders[id].status == status
  }

  /** Why an order cannot be handled: existence before ownership before status. */
  ghost predicate NotOwned(orders: seq<Order>, id: nat, user: nat, status: Status, e: OrderError) {
    if id >= |orders| then e == OrderNotFound
    else if orders[id].user != user then e == Forbidden
    else orders[id].status != status && e == InvalidTransition
  }

  // ---------------------------------------------------------------- modifying

  /** The order's row is still open and its vendor sells all the new items. */
  ghost predicate OpenFor(cat: Catalog, now: int, o: Order, items: seq<PlaceItem>) {
    now < o.cutoffAt && OneVendor(cat.menu, items, Some(o.vendor))
  }

  /** Every item that grows has room for the difference. */
  ghost predicate GrowthFits(s: Supplies, o: Order, items: seq<PlaceItem>) {
    forall item: nat | UnitsOf(items, item) > QtyOf(o.lines, item) :: HasRoom(s, o.date, item, UnitsOf(items, item) - QtyOf(o.lines, item))
  }

  ghost predicate MayModify(cat: Catalog, now: int, s: Supplies, orders: seq<Order>, id: nat, user: nat, items: seq<PlaceItem>) {
    && items != [] && Owns(orders, id, user, Placed)
    && OpenFor(cat, now, orders[id], items) && GrowthFits(s, orders[id], items)
  }

  /** New lines, total and notes; everything else as it was. */
  ghost predicate ModifiedRow(cat: Catalog, before: Order, after: Order, items: seq<PlaceItem>, notes: string) {
    && LinesFor(cat.menu, items, after.lines)
    && after == before.(lines := after.lines, total := TotalOf(after.lines), notes := notes)
  }

  ghost predicate ModifyRefused(cat: Catalog, now: int, orders: seq<Order>, id: nat, user: nat, items: seq<PlaceItem>, e: OrderError) {
    if items == [] then e == EmptyOrder
    else if !Owns(orders, id, user, Placed) then NotOwned(orders, id, user, Placed, e)
    else if orders[id].cutoffAt <= now then e == CutoffPassed
    else exists i: nat :: FirstMisfit(cat.menu, Some(orders[id].vendor), items, i, e)
  }

  // ---------------------------------------------------------------- reordering

  /** The source is the caller's and its vendor serves the plant. */
  ghost predicate MayClone(cat: Catalog, orders: seq<Order>, source: nat, user: nat, plant: nat) {
    source < |orders| && orders[source].user == user && ServesPlant(cat, orders[source].vendor, plant)
  }

  /** All kept lines of an item fit its row together. */
  ghost predicate KeptFit(s: Supplies, day: int, kept: seq<Line>) {
    forall i | 0 <= i < |kept| :: kept[i].qty > 0 && HasRoom(s, day, kept[i].item, QtyOf(kept, kept[i].item))
  }

  /** The clone: the caller, the plant and day asked for, the source's vendor, the kept lines and their price. */
  ghost predicate ClonedRow(cat: Catalog, src: Order, user: nat, day: int, plant: nat, kept: seq<Line>, o: Order) {
    && o.user == user && o.vendor == src.vendor && o.plant == plant && o.date == day
    && o.status == Placed && o.readyAt == None && o.notes == "" && ClosesAt(cat, src.vendor, day, o.cutoffAt)
    && o.lines == kept && o.total == TotalOf(kept)
  }

  ghost predicate CloneRefused(cat: Catalog, orders: seq<Order>, source: nat, user: nat, plant: nat, e: OrderError) {
    if source >= |orders| then e == OrderNotFound
    else if orders[source].user != user then e == Forbidden
    else if !ServesPlant(cat, orders[source].vendor, plant) then e == VendorPlantMismatch
    else orders[source].vendor !in cat.vendors && e == VendorNotFound
  }
}
