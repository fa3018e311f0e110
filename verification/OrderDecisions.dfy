/** What the order services decide before their transactions, and that it is what the callers are promised. */
module OrderDecisions {
  import opened Wrappers
  import opened OrderTypes
  import opened Stock
  import opened Catalog
  import opened Reorder
  import opened OrderDb
  import opened OrderTerms

  /** The order that Place builds before its transaction, or the error of the first check that fails. */
  function PlaceOrder(cat: Catalog, now: int, input: PlaceInput): Result<Order, OrderError> {
    if input.items == [] then Failure(EmptyOrder)
    else
      match Resolution(cat.menu, None, input.items)
      case Failure(e) => Failure(e)
      case Success(out) =>
        var vendor := if out.vendor.Some? then out.vendor.value else 0;
        match PlacementError(cat, vendor, input.plant, input.date, now)
        case Some(e) => Failure(e)
        case None =>
          if vendor !in cat.vendors then Failure(VendorNotFound) else
          Success(Order(input.user, vendor, input.plant, input.date, Placed, out.total, input.notes,
                        CutoffAt(cat.vendors[vendor], input.date), None, out.lines))
  }

  function OwnedIn(db: Db, id: nat, user: nat, status: Status): Option<OrderError> {
    if id >= |db.orders| then Some(OrderNotFound)
    else if db.orders[id].user != user then Some(Forbidden)
    else if db.orders[id].status != status then Some(InvalidTransition)
    else None
  }

  /** The lines that Modify will write, or the error of the first check that fails. */
  function ModifiedLines(db: Db, cat: Catalog, now: int, id: nat, user: nat, items: seq<PlaceItem>): Result<seq<Line>, OrderError> {
    if items == [] then Failure(EmptyOrder)
    else
      match OwnedIn(db, id, user, Placed)
      case Some(e) => Failure(e)
      case None =>
        if id >= |db.orders| then Failure(OrderNotFound)
        else if now >= db.orders[id].cutoffAt then Failure(CutoffPassed)
        else
          match Resolution(cat.menu, Some(db.orders[id].vendor), items)
          case Failure(e) => Failure(e)
          case Success(out) => Success(out.lines)
  }

  /** The order a reorder would create: None when no line of the source survives. */
  function ReorderOrder(db: Db, cat: Catalog, now: int, user: nat, source: nat, day: int, plant: nat): Result<Option<Order>, OrderError> {
    if source >= |db.orders| then Failure(OrderNotFound)
    else
      var src := db.orders[source];
      if src.user != user then Failure(Forbidden)
      else if !Serves(cat, src.vendor, plant) then Failure(VendorPlantMismatch)
      else
        var lines := Survivors(cat, db.supplies, day, now, src.lines);
        if lines == [] then Success(None)
        else if src.vendor !in cat.vendors then Failure(VendorNotFound)
        else Success(Some(Order(user, src.vendor, plant, day, Placed, TotalOf(lines), "",
                                CutoffAt(cat.vendors[src.vendor], day), None, lines)))
  }

  // ---------------------------------------------------------------- placing

  lemma VendorExactly(cat: Catalog, now: int, input: PlaceInput, v: nat)
    requires OneVendor(cat.menu, input.items, Some(v))
    ensures PlacementError(cat, v, input.plant, input.date, now).None? <==> TakenBy(cat, now, input, v)
    ensures PlacementError(cat, v, input.plant, input.date, now).Some? ==>
              VendorRefuses(cat, now, input, v, PlacementError(cat, v, input.plant, input.date, now).value)
  {
    if v in cat.vendors { assert ClosesAt(cat, v, input.date, CutoffAt(cat.vendors[v], input.date)); }
  }

  lemma TakeExactly(menu: map<nat, MenuItem>, s: Supplies, date: int, items: seq<PlaceItem>, lines: seq<Line>)
    requires LinesFor(menu, items, lines) && AllPositive(lines)
    ensures CanTake(s, date, lines) <==> forall i | 0 <= i < |items| :: HasRoom(s, date, items[i].item, UnitsOf(items, items[i].item))
  {
    forall i | 0 <= i < |items| ensures CanTakeItem(s, date, lines, lines[i].item) <==> HasRoom(s, date, items[i].item, UnitsOf(items, items[i].item)) {
      UnitsAreQty(menu, items, lines, items[i].item);
    }
    if CanTake(s, date, lines) {
      forall i | 0 <= i < |items| ensures HasRoom(s, date, items[i].item, UnitsOf(items, items[i].item)) {
        assert CanTakeItem(s, date, lines, lines[i].item);
      }
    }
  }

  /** The checks of Place pass exactly when some vendor takes the order; the row built is the one promised. */
  lemma PlaceOrderExactly(cat: Catalog, now: int, input: PlaceInput)
    ensures PlaceOrder(cat, now, input).Success? <==> input.items != [] && exists v: nat :: TakenBy(cat, now, input, v)
    ensures PlaceOrder(cat, now, input).Success? ==>
              PlacedRow(cat, input, PlaceOrder(cat, now, input).value) && AllPositive(PlaceOrder(cat, now, input).value.lines)
    ensures PlaceOrder(cat, now, input).Failure? ==> PlaceRefused(cat, now, input, PlaceOrder(cat, now, input).error)
  {
    if input.items != [] {
      var first := input.items[0];
      if v: nat :| TakenBy(cat, now, input, v) {
        ResolutionSucceeds(cat.menu, None, input.items, Some(v));
        assert cat.menu[first.item].vendor == v;
      }
      if Resolution(cat.menu, None, input.items).Failure? {
        ResolutionFails(cat.menu, None, input.items);
      } else {
        ResolutionMeans(cat.menu, None, input.items);
        var v := Resolution(cat.menu, None, input.items).value.vendor;
        assert v == Some(cat.menu[first.item].vendor);
        VendorExactly(cat, now, input, v.value);
      }
    }
  }

  /** Place commits exactly when the caller may place. */
  lemma PlaceExactly(cat: Catalog, now: int, s: Supplies, input: PlaceInput)
    ensures var o := PlaceOrder(cat, now, input);
            o.Success? && CanTake(s, o.value.date, o.value.lines) <==> MayPlace(cat, now, s, input)
  {
    PlaceOrderExactly(cat, now, input);
    if PlaceOrder(cat, now, input).Success? {
      TakeExactly(cat.menu, s, input.date, input.items, PlaceOrder(cat, now, input).value.lines);
    }
  }

  // ---------------------------------------------------------------- modifying

  lemma OwnedExactly(db: Db, id: nat, user: nat, status: Status)
    ensures OwnedIn(db, id, user, status).None? <==> Owns(db.orders, id, user, status)
    ensures OwnedIn(db, id, user, status).Some? ==> NotOwned(db.orders, id, user, status, OwnedIn(db, id, user, status).value)
  {
  }

  lemma NetExactly(menu: map<nat, MenuItem>, s: Supplies, o: Order, items: seq<PlaceItem>, lines: seq<Line>)
    requires LinesFor(menu, items, lines)
    ensures CanNet(s, o.date, o.lines, lines) <==> GrowthFits(s, o, items)
  {
    forall item: nat ensures QtyOf(lines, item) == UnitsOf(items, item) { UnitsAreQty(menu, items, lines, item); }
    NetSucceedsExactly(s, o.date, o.lines, lines);
    if CanNet(s, o.date, o.lines, lines) {
      forall item: nat | UnitsOf(items, item) > QtyOf(o.lines, item)
        ensures HasRoom(s, o.date, item, UnitsOf(items, item) - QtyOf(o.lines, item))
      {
        assert QtyOf(lines, item) > QtyOf(o.lines, item);
      }
    }
    if GrowthFits(s, o, items) {
      forall item: nat | QtyOf(lines, item) > QtyOf(o.lines, item)
        ensures var k := Key(item, o.date); k in s && !s[k].soldOut && s[k].remain + QtyOf(o.lines, item) >= QtyOf(lines, item)
      {
        assert HasRoom(s, o.date, item, UnitsOf(items, item) - QtyOf(o.lines, item));
      }
    }
  }

  /** The checks of Modify pass exactly for an open order of the caller's and items of its vendor. */
  lemma ModifiedLinesExactly(db: Db, cat: Catalog, now: int, id: nat, user: nat, items: seq<PlaceItem>)
    ensures var r := ModifiedLines(db, cat, now, id, user, items);
            && (r.Success? <==> items != [] && Owns(db.orders, id, user, Placed) && OpenFor(cat, now, db.orders[id], items))
            && (r.Success? ==> LinesFor(cat.menu, items, r.value) && AllPositive(r.value))
            && (r.Failure? ==> ModifyRefused(cat, now, db.orders, id, user, items, r.error))
  {
    if items != [] && Owns(db.orders, id, user, Placed) && now < db.orders[id].cutoffAt {
      var start := Some(db.orders[id].vendor);
      if OneVendor(cat.menu, items, start) { ResolutionSucceeds(cat.menu, start, items, start); }
      if Resolution(cat.menu, start, items).Failure? {
        ResolutionFails(cat.menu, start, items);
      } else {
        ResolutionMeans(cat.menu, start, items);
      }
    }
  }

  /** Modify commits exactly when the caller may modify. */
  lemma ModifyExactly(db: Db, cat: Catalog, now: int, id: nat, user: nat, items: seq<PlaceItem>)
    ensures var r := ModifiedLines(db, cat, now, id, user, items);
            r.Success? && id < |db.orders| && CanNet(db.supplies, db.orders[id].date, db.orders[id].lines, r.value)
            <==> MayModify(cat, now, db.supplies, db.orders, id, user, items)
  {
    ModifiedLinesExactly(db, cat, now, id, user, items);
    var r := ModifiedLines(db, cat, now, id, user, items);
    if r.Success? { NetExactly(cat.menu, db.supplies, db.orders[id], items, r.value); }
  }

  // ---------------------------------------------------------------- reordering

  /** What a reorder decides: nothing to clone, the promised row, or the first check that fails. */
  lemma ReorderExactly(db: Db, cat: Catalog, now: int, user: nat, source: nat, day: int, plant: nat)
    ensures var r := ReorderOrder(db, cat, now, user, source, day, plant);
            && (r.Failure? ==> CloneRefused(cat, db.orders, source, user, plant, r.error))
            && (r.Success? ==>
                  && MayClone(cat, db.orders, source, user, plant)
                  && var src := db.orders[source];
                     var kept := Survivors(cat, db.supplies, day, now, src.lines);
                     && (r.value.None? <==> kept == [])
                     && (r.value.Some? ==> ClonedRow(cat, src, user, day, plant, kept, r.value.value)))
    ensures ReorderOrder(db, cat, now, user, source, day, plant).Success? <==>
              && MayClone(cat, db.orders, source, user, plant)
              && (Survivors(cat, db.supplies, day, now, db.orders[source].lines) == [] || db.orders[source].vendor in cat.vendors)
  {
  }

  lemma KeptExactly(s: Supplies, day: int, kept: seq<Line>)
    ensures CanTake(s, day, kept) <==> KeptFit(s, day, kept)
  {
    if CanTake(s, day, kept) {
      forall i | 0 <= i < |kept| ensures kept[i].qty > 0 && HasRoom(s, day, kept[i].item, QtyOf(kept, kept[i].item)) {
        assert CanTakeItem(s, day, kept, kept[i].item);
      }
    }
  }
}
