/** The order, reorder and quota services over the tables, and what every serial run of their calls keeps. */
module OrderService {
  import opened Wrappers
  import opened OrderTypes
  import opened Stock
  import opened Catalog
  import opened Reorder
  import opened OrderDb
  import opened Conservation
  import opened OrderLog
  import opened OrderTerms
  import opened OrderDecisions
  import Interleaving

  function Reads(db: Db, ids: seq<nat>): seq<ReadyRead>
    requires forall j | 0 <= j < |ids| :: ids[j] < |db.orders|
  {
    seq(|ids|, j requires 0 <= j < |ids| => ReadyRead(ids[j], db.orders[ids[j]]))
  }

  /** All listed orders exist, belong to the vendor, are placed or cut off, and are listed once. */
  predicate ReadyAllowed(db: Db, ids: seq<nat>, vendor: nat) {
    && (forall j | 0 <= j < |ids| ::
          ids[j] < |db.orders| && db.orders[ids[j]].vendor == vendor && db.orders[ids[j]].status in {Placed, Cutoff})
    && (forall j, k | 0 <= j < k < |ids| :: ids[j] != ids[k])
  }

  // ---------------------------------------------------------------- the services

  class Store {
    var supplies: Supplies
    var orders: seq<Order>
    var events: seq<StateEvent>
    var outbox: seq<Message>
    var audit: seq<AuditRow>

    constructor ()
      ensures State() == EMPTY
    {
      supplies, orders, events, outbox, audit := map[], [], [], [], [];
    }

    function State(): Db
      reads this
    {
      Db(supplies, orders, events, outbox, audit)
    }

    method Commit(tx: Db)
      modifies this
      ensures State() == tx
    {
      supplies, orders, events, outbox, audit := tx.supplies, tx.orders, tx.events, tx.outbox, tx.audit;
    }

    method PersistPlaced(o: Order, action: Action) returns (r: Result<nat, OrderError>)
      modifies this
      ensures CanTake(old(supplies), o.date, o.lines) ==>
                r == Success(old(|orders|)) && Some(State()) == PlaceTx(old(State()), o, action)
      ensures !CanTake(old(supplies), o.date, o.lines) ==>
                && State() == old(State())
                && exists i: nat, e: StockError :: FailsFirstAt(old(supplies), o.date, o.lines, i, e) && r == Failure(StockFailure(e))
    {
      var t := TakeLines(supplies, o.date, o.lines);
      if t.Failure? { return Failure(StockFailure(t.error)); }
      var id := |orders|;
      supplies := t.value;
      orders := orders + [o];
      events := events + [StateEvent(id, None, Placed)];
      outbox := outbox + [Message(OrderPlaced, id)];
      audit := audit + [AuditRow(action, id)];
      return Success(id);
    }

    method Place(cat: Catalog, now: int, input: PlaceInput) returns (r: Result<nat, OrderError>)
      modifies this
      ensures match PlaceOrder(cat, now, input)
              case Failure(e) => r == Failure(e) && State() == old(State())
              case Success(o) =>
                if CanTake(old(supplies), o.date, o.lines)
                then r == Success(old(|orders|)) && Some(State()) == PlaceTx(old(State()), o, ActPlace)
                else State() == old(State()) &&
                     exists i: nat, e: StockError :: FailsFirstAt(old(supplies), o.date, o.lines, i, e) && r == Failure(StockFailure(e))
      ensures State() == Serve(old(State()), PlaceRequest(cat, now, input))
      ensures r.Success? <==> MayPlace(cat, now, old(supplies), input)
      ensures r.Success? ==>
                && r.value == |old(orders)| && |orders| == |old(orders)| + 1 && orders[..r.value] == old(orders)
                && PlacedRow(cat, input, orders[r.value])
      ensures r.Failure? ==> State() == old(State()) && (r.error.StockFailure? || PlaceRefused(cat, now, input, r.error))
    {
      PlaceOrderExactly(cat, now, input);
      PlaceExactly(cat, now, supplies, input);
      if input.items == [] { return Failure(EmptyOrder); }
      var resolved := ResolveItems(cat.menu, None, input.items);
      if resolved.Failure? { return Failure(resolved.error); }
      ResolutionMeans(cat.menu, None, input.items);
      assert resolved.value.vendor == Some(cat.menu[input.items[0].item].vendor);
      var vendor := resolved.value.vendor.value;
      var e := PlacementError(cat, vendor, input.plant, input.date, now);
      if e.Some? { return Failure(e.value); }
      var o := Order(input.user, vendor, input.plant, input.date, Placed, resolved.value.total, input.notes,
                     CutoffAt(cat.vendors[vendor], input.date), None, resolved.value.lines);
      r := PersistPlaced(o, ActPlace);
    }

    method Cancel(id: nat, user: nat) returns (r: Result<(), OrderError>)
      modifies this
      ensures match OwnedIn(old(State()), id, user, Placed)
              case Some(e) => r == Failure(e) && State() == old(State())
              case None =>
                id < |old(orders)| &&
                if AllPositive(old(orders)[id].lines)
                then r == Success(()) && Some(State()) == CancelTx(old(State()), id, old(orders)[id])
                else r == Failure(StockFailure(BadQuantity)) && State() == old(State())
      ensures State() == Serve(old(State()), CancelRequest(id, user))
      ensures r.Success? <==> Owns(old(orders), id, user, Placed) && AllPositive(old(orders)[id].lines)
      ensures r.Success? ==> orders == old(orders)[id := old(orders)[id].(status := Cancelled)]
      ensures r.Failure? ==> State() == old(State()) && (r.error.StockFailure? || NotOwned(old(orders), id, user, Placed, r.error))
    {
      var e := OwnedIn(State(), id, user, Placed);
      if e.Some? { return Failure(e.value); }
      var read := orders[id];
      var given := GiveLines(supplies, read.date, read.lines);
      if given.Failure? { return Failure(StockFailure(given.error)); }
      orders := orders[id := orders[id].(status := Cancelled)];
      supplies := given.value;
      events := events + [StateEvent(id, Some(Placed), Cancelled)];
      outbox := outbox + [Message(OrderCancelled, id)];
      audit := audit + [AuditRow(ActCancel, id)];
      return Success(());
    }

    method Modify(cat: Catalog, now: int, id: nat, user: nat, items: seq<PlaceItem>, notes: string) returns (r: Result<Order, OrderError>)
      modifies this
      ensures match ModifiedLines(old(State()), cat, now, id, user, items)
              case Failure(e) => r == Failure(e) && State() == old(State())
              case Success(lines) =>
                id < |old(orders)| &&
                var read := old(orders)[id];
                if CanNet(old(supplies), read.date, read.lines, lines)
                then Some(State()) == ModifyTx(old(State()), id, read, lines, notes)
                     && id < |orders| && r == Success(orders[id])
                else r.Failure? && r.error.StockFailure? && State() == old(State())
      ensures State() == Serve(old(State()), ModifyRequest(cat, now, id, user, items, notes))
      ensures r.Success? <==> MayModify(cat, now, old(supplies), old(orders), id, user, items)
      ensures r.Success? ==>
                && id < |old(orders)| && ModifiedRow(cat, old(orders)[id], r.value, items, notes)
                && orders == old(orders)[id := r.value]
      ensures r.Failure? ==> State() == old(State()) && (r.error.StockFailure? || ModifyRefused(cat, now, old(orders), id, user, items, r.error))
    {
      ModifiedLinesExactly(State(), cat, now, id, user, items);
      ModifyExactly(State(), cat, now, id, user, items);
      ModifyServes(State(), cat, now, id, user, items, notes);
      if items == [] { return Failure(EmptyOrder); }
      var e := OwnedIn(State(), id, user, Placed);
      if e.Some? { return Failure(e.value); }
      var read := orders[id];
      if now >= read.cutoffAt { return Failure(CutoffPassed); }
      var resolved := ResolveItems(cat.menu, Some(read.vendor), items);
      if resolved.Failure? { return Failure(resolved.error); }
      ResolutionMeans(cat.menu, Some(read.vendor), items);
      var e' := PersistModified(id, read, resolved.value.lines, resolved.value.total, notes);
      if e'.Some? { return Failure(StockFailure(e'.value)); }
      return Success(orders[id]);
    }

    /** Net delta, replaced items, message and audit row, or nothing. */
    method PersistModified(id: nat, read: Order, lines: seq<Line>, total: int, notes: string) returns (e: Option<StockError>)
      requires id < |orders| && AllPositive(lines) && total == TotalOf(lines)
      modifies this
      ensures e.None? <==> CanNet(old(supplies), read.date, read.lines, lines)
      ensures if e.None? then Some(State()) == ModifyTx(old(State()), id, read, lines, notes) else State() == old(State())
    {
      var applied := ApplyModification(supplies, read.date, read.lines, lines);
      if applied.Failure? { return Some(applied.error); }
      supplies := applied.value;
      orders := orders[id := orders[id].(lines := lines, total := total, notes := notes)];
      outbox := outbox + [Message(OrderModified, id)];
      audit := audit + [AuditRow(ActModify, id)];
      return None;
    }

    /** All listed orders become ready or none does; a repeated id fails its second conditional update. */
    method MarkReady(ids: seq<nat>, vendor: nat, now: int) returns (r: Result<(), OrderError>)
      modifies this
      ensures r.Success? <==> ReadyAllowed(old(State()), ids, vendor)
      ensures r.Success? ==> State() == Readied(old(State()), Reads(old(State()), ids), now)
      ensures r.Failure? ==> State() == old(State())
      ensures State() == Serve(old(State()), ReadyRequest(ids, vendor, now))
      ensures r.Success? ==>
                && |orders| == |old(orders)| && supplies == old(supplies)
                && forall id | 0 <= id < |orders| ::
                     orders[id] == if id in ids then old(orders)[id].(status := Ready, readyAt := Some(now)) else old(orders)[id]
    {
      ListedIds(State(), ids);
      ReadyServes(State(), ids, vendor, now);
      r := MarkEachReady(ids, vendor, now);
    }

    /** The transaction: one order after the other, committed together. */
    method MarkEachReady(ids: seq<nat>, vendor: nat, now: int) returns (r: Result<(), OrderError>)
      modifies this
      ensures r.Success? <==> ReadyAllowed(old(State()), ids, vendor)
      ensures State() == if r.Success? then Readied(old(State()), Reads(old(State()), ids), now) else old(State())
    {
      var tx := State();
      assert Readied(State(), [], now) == State();
      for i := 0 to |ids|
        invariant State() == old(State())
        invariant ReadyAllowed(State(), ids[..i], vendor)
        invariant tx == Readied(State(), Reads(State(), ids[..i]), now)
      {
        var id := ids[i];
        if id >= |orders| { return Failure(OrderNotFound); }
        var read := orders[id];
        if read.vendor != vendor { return Failure(Forbidden); }
        if !CanTransition(read.status, Ready) { return Failure(InvalidTransition); }
        ghost var batch := Reads(State(), ids[..i]);
        if tx.orders[id].status !in {Placed, Cutoff} {
          assert Listed(batch, id);
          ghost var j :| 0 <= j < |batch| && batch[j].id == id;
          assert ids[j] == ids[i];
          return Failure(InvalidTransition);
        }
        assert !Listed(batch, id);
        ReadOneMore(State(), ids, i, now);
        tx := Db(tx.supplies, tx.orders[id := tx.orders[id].(status := Ready, readyAt := Some(now))],
                 tx.events + [StateEvent(id, Some(read.status), Ready)],
                 tx.outbox + [Message(OrderReady, id)], tx.audit + [AuditRow(ActReady, id)]);
        assert ReadyAllowed(State(), ids[..i + 1], vendor) by {
          forall j, k | 0 <= j < k < i + 1 ensures ids[j] != ids[k] {
            if k == i { assert batch[j].id == ids[j]; } else { assert ids[..i][j] != ids[..i][k]; }
          }
          assert forall j | 0 <= j < i :: ids[..i][j] == ids[j];
        }
      }
      assert ids[..|ids|] == ids;
      Commit(tx);
      return Success(());
    }

    method Pickup(id: nat, employee: nat) returns (r: Result<(), OrderError>)
      modifies this
      ensures match OwnedIn(old(State()), id, employee, Ready)
              case Some(e) => r == Failure(e) && State() == old(State())
              case None => r == Success(()) && Some(State()) == FlipTx(old(State()), id, Ready, PickedUp, OrderPickedUp, ActPickedUp)
      ensures State() == Serve(old(State()), PickupRequest(id, employee))
      ensures r.Success? <==> Owns(old(orders), id, employee, Ready)
      ensures r.Success? ==> orders == old(orders)[id := old(orders)[id].(status := PickedUp)] && supplies == old(supplies)
      ensures r.Failure? ==> State() == old(State()) && NotOwned(old(orders), id, employee, Ready, r.error)
    {
      var e := OwnedIn(State(), id, employee, Ready);
      if e.Some? { return Failure(e.value); }
      var ok := Flip(id, Ready, PickedUp, OrderPickedUp, ActPickedUp);
      return Success(());
    }

    /** The conditional status update with its event, message and audit row. */
    method Flip(id: nat, from: Status, to: Status, subject: Subject, action: Action) returns (ok: bool)
      modifies this
      ensures ok <==> FlipTx(old(State()), id, from, to, subject, action).Some?
      ensures State() == if ok then FlipTx(old(State()), id, from, to, subject, action).value else old(State())
    {
      if id >= |orders| || orders[id].status != from { return false; }
      orders := orders[id := orders[id].(status := to)];
      events := events + [StateEvent(id, Some(from), to)];
      outbox := outbox + [Message(subject, id)];
      audit := audit + [AuditRow(action, id)];
      return true;
    }

    /**
     * The sweep over the stale ready orders that the table listed, in any order: each commits on its own, so in a serial
     * run every one of them becomes a no-show and nothing else changes status.
     */
    method MarkNoShow(now: int, cutoffAge: int, pending: seq<nat>) returns (n: nat)
      requires ListsStale(State(), now - cutoffAge, pending)
      modifies this
      ensures n == |pending|
      ensures State() == Run(old(State()), NoShows(pending)) == ServeAll(old(State()), NoShowRequests(pending))
      ensures |orders| == |old(orders)|
      ensures forall id: nat | id < |orders| ::
                var o := old(orders)[id];
                orders[id] == if o.status == Ready && o.readyAt.Some? && o.readyAt.value + cutoffAge < now then o.(status := NoShow) else o
    {
      n := 0;
      for i := 0 to |pending|
        invariant n == i && |orders| == |old(orders)|
        invariant forall id: nat | id < |orders| ::
                    orders[id] == if id in pending[..i] then old(orders)[id].(status := NoShow) else old(orders)[id]
        invariant Run(old(State()), NoShows(pending)) == Run(State(), NoShows(pending[i..]))
      {
        assert pending[i] !in pending[..i];
        SweepStep(State(), pending, i);
        var ok := Flip(pending[i], Ready, NoShow, OrderNoShow, ActNoShow);
        if ok { n := n + 1; }
        forall id: nat ensures id in pending[..i + 1] <==> id in pending[..i] || id == pending[i] {
          assert pending[..i + 1] == pending[..i] + [pending[i]];
        }
      }
      SweepServes(old(State()), pending);
      assert pending[..|pending|] == pending;
    }

    method SetCapacity(cat: Catalog, vendor: nat, key: Key, capacity: int, cutoffAt: int) returns (r: Result<Supply, OrderError>)
      modifies this
      ensures match SetCapacityRequest(old(State()), cat, vendor, key, capacity, cutoffAt)
              case Failure(e) => r == Failure(e) && State() == old(State())
              case Success(db) => State() == db && key in supplies && r == Success(supplies[key])
      ensures State() == Serve(old(State()), CapacityRequest(cat, vendor, key, capacity, cutoffAt))
      ensures r.Success? <==> key.item in cat.menu && cat.menu[key.item].vendor == vendor && 0 <= capacity
      ensures r.Success? ==> supplies == old(supplies)[key := r.value] && orders == old(orders)
      ensures r.Success? ==>
                && r.value.capacity == capacity && r.value.cutoffAt == cutoffAt
                && r.value.soldOut == (key in old(supplies) && old(supplies)[key].soldOut)
                && (key !in old(supplies) ==> r.value.remain == capacity)
      ensures r.Success? && key in old(supplies) && old(supplies)[key].remain <= old(supplies)[key].capacity ==>
                var sold := old(supplies)[key].capacity - old(supplies)[key].remain;
                r.value.remain == if sold <= capacity then capacity - sold else 0
      ensures r.Failure? ==> State() == old(State())
      ensures r.Failure? ==>
                r.error == if key.item !in cat.menu then ItemNotFound else if cat.menu[key.item].vendor != vendor then Forbidden else InvalidCapacity
    {
      if key.item !in cat.menu { return Failure(ItemNotFound); }
      if cat.menu[key.item].vendor != vendor { return Failure(Forbidden); }
      var newRemain := capacity;
      if key in supplies {
        var sold := supplies[key].capacity - supplies[key].remain;
        newRemain := capacity - sold;
        if newRemain < 0 { newRemain := 0; }
        newRemain := Min(newRemain, capacity);
      }
      if capacity < 0 || newRemain < 0 || newRemain > capacity { return Failure(InvalidCapacity); }
      var row := Supply(capacity, newRemain, key in supplies && supplies[key].soldOut, cutoffAt);
      supplies := supplies[key := row];
      return Success(row);
    }

    /**
     * Clones the surviving lines into a new order. With no survivor, or when any decrement fails, nothing changes; the
     * dropped lines are reported either way.
     */
    method Reorder(cat: Catalog, now: int, user: nat, source: nat, day: int, plant: nat)
      returns (r: Result<(Option<nat>, seq<Unavailable>), OrderError>)
      modifies this
      ensures match ReorderOrder(old(State()), cat, now, user, source, day, plant)
              case Failure(e) => r == Failure(e) && State() == old(State())
              case Success(None) =>
                && source < |old(orders)|
                && r == Success((None, Dropped(cat, old(supplies), day, now, old(orders)[source].lines)))
                && State() == old(State())
              case Success(Some(o)) =>
                source < |old(orders)| &&
                if CanTake(old(supplies), day, o.lines)
                then && Some(State()) == PlaceTx(old(State()), o, ActReorder)
                     && r == Success((Some(old(|orders|)), Dropped(cat, old(supplies), day, now, old(orders)[source].lines)))
                else r.Failure? && r.error.StockFailure? && State() == old(State())
      ensures State() == Serve(old(State()), ReorderRequest(cat, now, user, source, day, plant))
      ensures r.Success? ==>
                && MayClone(cat, old(orders), source, user, plant)
                && exists kept :: Cloned(cat, now, old(State()), State(), source, user, day, plant, kept, r.value.0, r.value.1)
      ensures r.Failure? ==>
                && State() == old(State())
                && if r.error.StockFailure?
                   then && MayClone(cat, old(orders), source, user, plant)
                        && exists kept, dropped :: Unfit(cat, now, old(State()), source, day, kept, dropped)
                   else CloneRefused(cat, old(orders), source, user, plant, r.error)
    {
      ReorderExactly(State(), cat, now, user, source, day, plant);
      if source >= |orders| { return Failure(OrderNotFound); }
      var src := orders[source];
      if src.user != user { return Failure(Forbidden); }
      if !Serves(cat, src.vendor, plant) { return Failure(VendorPlantMismatch); }
      var lines, unavailable := ClassifyItems(cat, supplies, day, now, src.lines);
      if lines == [] {
        assert Cloned(cat, now, old(State()), State(), source, user, day, plant, [], None, unavailable);
        return Success((None, unavailable));
      }
      if src.vendor !in cat.vendors { return Failure(VendorNotFound); }
      var total := TotalPrice(lines);
      var o := Order(user, src.vendor, plant, day, Placed, total, "", CutoffAt(cat.vendors[src.vendor], day), None, lines);
      KeptExactly(supplies, day, lines);
      var id := PersistPlaced(o, ActReorder);
      if id.Failure? {
        assert Unfit(cat, now, State(), source, day, lines, unavailable);
        return Failure(id.error);
      }
      assert Cloned(cat, now, old(State()), State(), source, user, day, plant, lines, Some(id.value), unavailable);
      return Success((Some(id.value), unavailable));
    }
  }

  /** The sellable lines of the source are kept: with none nothing happens, and otherwise they fit and become the one new order. */
  ghost predicate Cloned(cat: Catalog, now: int, before: Db, after: Db, source: nat, user: nat, day: int, plant: nat,
                         kept: seq<Line>, id: Option<nat>, dropped: seq<Unavailable>)
  {
    && source < |before.orders| && SortedOut(cat, before.supplies, day, now, before.orders[source].lines, kept, dropped)
    && if kept == [] then id == None && after == before
       else && id == Some(|before.orders|) && KeptFit(before.supplies, day, kept)
            && |after.orders| == |before.orders| + 1 && after.orders[..|before.orders|] == before.orders
            && ClonedRow(cat, before.orders[source], user, day, plant, kept, after.orders[|before.orders|])
  }

  /** The sellable lines of the source do not fit together. */
  ghost predicate Unfit(cat: Catalog, now: int, db: Db, source: nat, day: int, kept: seq<Line>, dropped: seq<Unavailable>) {
    && source < |db.orders| && SortedOut(cat, db.supplies, day, now, db.orders[source].lines, kept, dropped)
    && kept != [] && !KeptFit(db.supplies, day, kept)
  }

  lemma ListedIds(db: Db, ids: seq<nat>)
    ensures (forall j | 0 <= j < |ids| :: ids[j] < |db.orders|) ==> forall id: nat :: Listed(Reads(db, ids), id) <==> id in ids
  {
    if forall j | 0 <= j < |ids| :: ids[j] < |db.orders| {
      forall id: nat ensures Listed(Reads(db, ids), id) <==> id in ids {
        if id in ids {
          var j :| 0 <= j < |ids| && ids[j] == id;
          assert Reads(db, ids)[j].id == id;
        }
      }
    }
  }

  lemma ModifyServes(db: Db, cat: Catalog, now: int, id: nat, user: nat, items: seq<PlaceItem>, notes: string)
    ensures Serve(db, ModifyRequest(cat, now, id, user, items, notes)) ==
            match ModifiedLines(db, cat, now, id, user, items)
            case Failure(_) => db
            case Success(lines) =>
              if id >= |db.orders| then db
              else match ModifyTx(db, id, db.orders[id], lines, notes) case Some(db') => db' case None => db
  {
  }

  lemma ReadyServes(db: Db, ids: seq<nat>, vendor: nat, now: int)
    ensures Serve(db, ReadyRequest(ids, vendor, now)) == if ReadyAllowed(db, ids, vendor) then Readied(db, Reads(db, ids), now) else db
  {
    if ReadyAllowed(db, ids, vendor) { assert CanReady(db, Reads(db, ids), vendor); }
  }

  lemma ReadOneMore(db: Db, ids: seq<nat>, i: nat, now: int)
    requires i < |ids| && forall j | 0 <= j <= i :: ids[j] < |db.orders|
    ensures var before, after := Reads(db, ids[..i]), Reads(db, ids[..i + 1]);
            var id, tx := ids[i], Readied(db, before, now);
            !Listed(before, id) ==>
              Readied(db, after, now) ==
              Db(tx.supplies, tx.orders[id := tx.orders[id].(status := Ready, readyAt := Some(now))],
                 tx.events + [StateEvent(id, Some(db.orders[id].status), Ready)],
                 tx.outbox + [Message(OrderReady, id)], tx.audit + [AuditRow(ActReady, id)])
  {
    var before, after := Reads(db, ids[..i]), Reads(db, ids[..i + 1]);
    assert after == before + [ReadyRead(ids[i], db.orders[ids[i]])];
    forall id: nat ensures Listed(after, id) <==> Listed(before, id) || id == ids[i] {
      if Listed(before, id) {
        var j :| 0 <= j < |before| && before[j].id == id;
        assert after[j].id == id;
      }
      if id == ids[i] { assert after[i].id == id; }
    }
  }

  predicate Stale(o: Order, threshold: int) {
    o.status == Ready && o.readyAt.Some? && o.readyAt.value < threshold
  }

  /** The rows of the stale-orders query, each once. */
  ghost predicate ListsStale(db: Db, threshold: int, pending: seq<nat>) {
    && (forall id: nat :: id in pending <==> id < |db.orders| && Stale(db.orders[id], threshold))
    && (forall i, j | 0 <= i < j < |pending| :: pending[i] != pending[j])
  }

  function NoShows(pending: seq<nat>): seq<OrderDb.Commit> {
    seq(|pending|, i requires 0 <= i < |pending| => NoShowOne(pending[i]))
  }

  function NoShowRequests(pending: seq<nat>): seq<Request> {
    seq(|pending|, i requires 0 <= i < |pending| => NoShowRequest(pending[i]))
  }

  /** The sweep is a run of calls like any other. */
  lemma {:induction false} SweepServes(db: Db, pending: seq<nat>)
    ensures Run(db, NoShows(pending)) == ServeAll(db, NoShowRequests(pending))
    decreases |pending|
  {
    if pending != [] {
      assert NoShows(pending)[1..] == NoShows(pending[1..]);
      assert NoShowRequests(pending)[1..] == NoShowRequests(pending[1..]);
      SweepServes(Next(db, NoShowOne(pending[0])), pending[1..]);
    }
  }

  lemma SweepStep(db: Db, pending: seq<nat>, i: nat)
    requires i < |pending|
    ensures Run(db, NoShows(pending[i..])) ==
            Run(match FlipTx(db, pending[i], Ready, NoShow, OrderNoShow, ActNoShow) case Some(db') => db' case None => db, NoShows(pending[i + 1..]))
  {
    assert NoShows(pending[i..])[1..] == NoShows(pending[i + 1..]);
  }

  function SetCapacityRequest(db: Db, cat: Catalog, vendor: nat, key: Key, capacity: int, cutoffAt: int): Result<Db, OrderError> {
    if key.item !in cat.menu then Failure(ItemNotFound)
    else if cat.menu[key.item].vendor != vendor then Failure(Forbidden)
    else
      match SetCapacityTx(db, key, if key in db.supplies then Some(db.supplies[key]) else None, capacity, cutoffAt)
      case None => Failure(InvalidCapacity)
      case Some(db') => Success(db')
  }

  // ---------------------------------------------------------------- callers that run alone

  /** Reading and committing with nobody in between is the call itself. */
  lemma LoneCancelServes(w: Interleaving.World, caller: nat, id: nat, user: nat)
    requires OwnedIn(w.db, id, user, Placed).None?
    ensures Interleaving.Step(Interleaving.Step(w, Interleaving.ReadOrder(caller, id)), Interleaving.SubmitCancel(caller)).db
            == Serve(w.db, CancelRequest(id, user))
  {
  }

  lemma LoneModifyServes(w: Interleaving.World, caller: nat, cat: Catalog, now: int, id: nat, user: nat, items: seq<PlaceItem>, notes: string)
    requires ModifiedLines(w.db, cat, now, id, user, items).Success?
    ensures var lines := ModifiedLines(w.db, cat, now, id, user, items).value;
            Interleaving.Step(Interleaving.Step(w, Interleaving.ReadOrder(caller, id)), Interleaving.SubmitModify(caller, lines, notes)).db
            == Serve(w.db, ModifyRequest(cat, now, id, user, items, notes))
  {
    ModifyServes(w.db, cat, now, id, user, items, notes);
  }

  lemma LoneCapacityServes(w: Interleaving.World, caller: nat, cat: Catalog, vendor: nat, key: Key, capacity: int, cutoffAt: int)
    requires key.item in cat.menu && cat.menu[key.item].vendor == vendor
    ensures Interleaving.Step(Interleaving.Step(w, Interleaving.ReadRow(caller, key)), Interleaving.SubmitCapacity(caller, capacity, cutoffAt)).db
            == Serve(w.db, CapacityRequest(cat, vendor, key, capacity, cutoffAt))
  {
  }

  // ---------------------------------------------------------------- serial runs

  datatype Request =
    | PlaceRequest(cat: Catalog, now: int, input: PlaceInput)
    | CancelRequest(id: nat, user: nat)
    | ModifyRequest(cat: Catalog, now: int, id: nat, user: nat, items: seq<PlaceItem>, notes: string)
    | ReorderRequest(cat: Catalog, now: int, user: nat, source: nat, day: int, plant: nat)
    | ReadyRequest(ids: seq<nat>, vendor: nat, now: int)
    | PickupRequest(id: nat, user: nat)
    | NoShowRequest(id: nat)
    | CutoffRequest(id: nat)
    | RefundRequest(id: nat)
    | CapacityRequest(cat: Catalog, vendor: nat, key: Key, capacity: int, cutoffAt: int)
    | SoldOutRequest(key: Key, flag: bool)

  /** The commit that a call issues when nobody runs between its reads and its transaction. */
  function CommitOf(db: Db, r: Request): Option<OrderDb.Commit> {
    match r
    case PlaceRequest(cat, now, input) =>
      (match PlaceOrder(cat, now, input) case Success(o) => Some(OrderDb.Place(o, ActPlace)) case Failure(_) => None)
    case CancelRequest(id, user) =>
      if OwnedIn(db, id, user, Placed).None? && id < |db.orders| then Some(OrderDb.Cancel(id, db.orders[id])) else None
    case ModifyRequest(cat, now, id, user, items, notes) =>
      (match ModifiedLines(db, cat, now, id, user, items)
       case Success(lines) => if id < |db.orders| then Some(OrderDb.Modify(id, db.orders[id], lines, notes)) else None
       case Failure(_) => None)
    case ReorderRequest(cat, now, user, source, day, plant) =>
      (match ReorderOrder(db, cat, now, user, source, day, plant)
       case Success(Some(o)) => Some(OrderDb.Place(o, ActReorder))
       case _ => None)
    case ReadyRequest(ids, vendor, now) =>
      if ReadyAllowed(db, ids, vendor) then Some(OrderDb.MarkReady(Reads(db, ids), vendor, now)) else None
    case PickupRequest(id, user) => if OwnedIn(db, id, user, Ready).None? then Some(OrderDb.Pickup(id)) else None
    case NoShowRequest(id) => Some(NoShowOne(id))
    case CutoffRequest(id) => Some(CutoffOne(id))
    case RefundRequest(id) => if id < |db.orders| then Some(Refund(id, db.orders[id].status)) else None
    case CapacityRequest(cat, vendor, key, capacity, cutoffAt) =>
      if key.item in cat.menu && cat.menu[key.item].vendor == vendor
      then Some(OrderDb.SetCapacity(key, if key in db.supplies then Some(db.supplies[key]) else None, capacity, cutoffAt))
      else None
    case SoldOutRequest(key, flag) => Some(SetSoldOut(key, flag))
  }

  function Serve(db: Db, r: Request): Db {
    match CommitOf(db, r)
    case None => db
    case Some(c) => Next(db, c)
  }

  function ServeAll(db: Db, rs: seq<Request>): Db
    decreases |rs|
  {
    if rs == [] then db else ServeAll(Serve(db, rs[0]), rs[1..])
  }

  /** Every new capacity in the run is at least the units sold when it is set. */
  ghost predicate CapacitiesCover(db: Db, rs: seq<Request>)
    decreases |rs|
  {
    rs != [] ==>
      && (rs[0].CapacityRequest? ==> rs[0].capacity >= Sold(db.orders, rs[0].key))
      && CapacitiesCover(Serve(db, rs[0]), rs[1..])
  }

  /** A call that runs alone commits on fresh reads. */
  lemma SerialReadsAreFresh(db: Db, r: Request)
    requires CommitOf(db, r).Some?
    ensures FreshRead(db, CommitOf(db, r).value) && FreshReady(db, CommitOf(db, r).value)
    ensures CommitOf(db, r).value.Place? ==> CommitOf(db, r).value.action in {ActPlace, ActReorder}
  {
  }

  /** In every state that calls reach from empty tables, remain + sold = capacity and 0 <= remain <= capacity on every row. */
  lemma {:induction false} StockConservedFrom(db: Db, rs: seq<Request>)
    requires Conserved(db) && CapacitiesCover(db, rs)
    ensures Conserved(ServeAll(db, rs))
    decreases |rs|
  {
    if rs != [] {
      if CommitOf(db, rs[0]).Some? {
        SerialReadsAreFresh(db, rs[0]);
        CommitConserves(db, CommitOf(db, rs[0]).value);
      }
      StockConservedFrom(Serve(db, rs[0]), rs[1..]);
    }
  }

  lemma StockConserved(rs: seq<Request>)
    requires CapacitiesCover(EMPTY, rs)
    ensures Conserved(ServeAll(EMPTY, rs))
  {
    StockConservedFrom(EMPTY, rs);
  }

  /** Whatever capacities are set: no unit is lost, every order's log is a path to its status, and the outbox tells it. */
  lemma {:induction false} RunKeepsFrom(db: Db, rs: seq<Request>)
    requires Covered(db) && LogOk(db) && Published(db)
    ensures Covered(ServeAll(db, rs)) && LogOk(ServeAll(db, rs)) && Published(ServeAll(db, rs))
    decreases |rs|
  {
    if rs != [] {
      if CommitOf(db, rs[0]).Some? {
        var c := CommitOf(db, rs[0]).value;
        SerialReadsAreFresh(db, rs[0]);
        CommitCovers(db, c);
        CommitKeepsLog(db, c);
        CommitPublishes(db, c);
      }
      RunKeepsFrom(Serve(db, rs[0]), rs[1..]);
    }
  }

  lemma EveryRunKeeps(rs: seq<Request>)
    ensures Covered(ServeAll(EMPTY, rs)) && LogOk(ServeAll(EMPTY, rs)) && Published(ServeAll(EMPTY, rs))
    ensures forall id: nat | id < |ServeAll(EMPTY, rs).orders| :: StepsAfterPlaced(ServeAll(EMPTY, rs), id) <= 4
  {
    RunKeepsFrom(EMPTY, rs);
    var db := ServeAll(EMPTY, rs);
    forall id: nat | id < |db.orders| ensures StepsAfterPlaced(db, id) <= 4 {
      AtMostFourSteps(db, id);
    }
  }

  /** Every stored total is the price of the stored lines. */
  ghost predicate Priced(db: Db) {
    forall id | 0 <= id < |db.orders| :: db.orders[id].total == TotalOf(db.orders[id].lines)
  }

  lemma CommitKeepsTotals(db: Db, c: OrderDb.Commit)
    requires Priced(db) && (c.Place? ==> c.order.total == TotalOf(c.order.lines))
    ensures Priced(Next(db, c))
  {
  }

  /** The total that Place stores was added up from the menu's prices, that of Reorder from the survivors. */
  lemma PlacedTotal(db: Db, r: Request)
    requires CommitOf(db, r).Some? && CommitOf(db, r).value.Place?
    ensures CommitOf(db, r).value.order.total == TotalOf(CommitOf(db, r).value.order.lines)
  {
    if r.PlaceRequest? { ResolutionMeans(r.cat.menu, None, r.input.items); }
  }

  /** Payroll and settlement add up stored totals: in every state of every run they are the lines' prices. */
  lemma {:induction false} TotalsMatchLines(db: Db, rs: seq<Request>)
    requires Priced(db)
    ensures Priced(ServeAll(db, rs))
    decreases |rs|
  {
    if rs != [] {
      var c := CommitOf(db, rs[0]);
      if c.Some? {
        if c.value.Place? { PlacedTotal(db, rs[0]); }
        CommitKeepsTotals(db, c.value);
      }
      TotalsMatchLines(Serve(db, rs[0]), rs[1..]);
    }
  }

  /** Placing an order and cancelling it restores every stock row. */
  lemma CancelUndoesPlace(db: Db, o: Order, action: Action)
    requires WellFormed(db) && o.status == Placed && PlaceTx(db, o, action).Some?
    ensures var placed := PlaceTx(db, o, action).value;
            var cancelled := CancelTx(placed, |db.orders|, placed.orders[|db.orders|]);
            cancelled.Some? && cancelled.value.supplies == db.supplies
  {
    var placed := PlaceTx(db, o, action).value;
    var cancelled := CancelTx(placed, |db.orders|, o).value;
    forall k | k in db.supplies ensures cancelled.supplies[k] == db.supplies[k] {
      PlaceSums(db, o, action, k);
      QtyPositive(o.lines, k.item);
    }
  }
}
