/** Stock conservation: what every commit keeps, and when a commit built on an earlier read keeps it. */
module Conservation {
  import opened Wrappers
  import opened OrderTypes
  import opened Stock
  import opened OrderDb

  /** Units of a row that an order holds: none once it is cancelled. */
  function Held(o: Order, k: Key): int {
    if o.date == k.date && o.status != Cancelled then QtyOf(o.lines, k.item) else 0
  }

  function Sold(orders: seq<Order>, k: Key): int {
    if orders == [] then 0 else Sold(orders[..|orders| - 1], k) + Held(orders[|orders| - 1], k)
  }

  /** order_item.qty is positive on every row. */
  ghost predicate LinesOk(orders: seq<Order>) {
    forall i | 0 <= i < |orders| :: AllPositive(orders[i].lines)
  }

  ghost predicate WellFormed(db: Db) {
    && LinesOk(db.orders)
    && Bounded(db.supplies)
    && (forall k: Key | k !in db.supplies :: Sold(db.orders, k) == 0)
  }

  /** remain + sold = capacity on every row. */
  ghost predicate Conserved(db: Db) {
    WellFormed(db) && forall k | k in db.supplies :: db.supplies[k].remain + Sold(db.orders, k) == db.supplies[k].capacity
  }

  /** No unit has been lost: remain + sold is at least the capacity. */
  ghost predicate Covered(db: Db) {
    WellFormed(db) && forall k | k in db.supplies :: db.supplies[k].remain + Sold(db.orders, k) >= db.supplies[k].capacity
  }

  // ---------------------------------------------------------------- sums over the order table

  lemma {:induction false} SoldUpdate(orders: seq<Order>, id: nat, o: Order, k: Key)
    requires id < |orders|
    ensures Sold(orders[id := o], k) == Sold(orders, k) - Held(orders[id], k) + Held(o, k)
  {
    var n := |orders| - 1;
    if id == n {
      assert orders[id := o][..n] == orders[..n];
    } else {
      SoldUpdate(orders[..n], id, o, k);
      assert orders[id := o][..n] == orders[..n][id := o];
    }
  }

  lemma SoldAppend(orders: seq<Order>, o: Order, k: Key)
    ensures Sold(orders + [o], k) == Sold(orders, k) + Held(o, k)
  {
    assert (orders + [o])[..|orders|] == orders;
  }

  /** Status changes that hold the same units do not move the sum. */
  lemma {:induction false} SoldSame(a: seq<Order>, b: seq<Order>, k: Key)
    requires |a| == |b| && forall i | 0 <= i < |a| :: Held(a[i], k) == Held(b[i], k)
    ensures Sold(a, k) == Sold(b, k)
  {
    if a != [] { SoldSame(a[..|a| - 1], b[..|b| - 1], k); }
  }

  /** One order never holds more than all orders together. */
  lemma {:induction false} HeldWithinSold(orders: seq<Order>, id: nat, k: Key)
    requires LinesOk(orders) && id < |orders|
    ensures 0 <= Held(orders[id], k) <= Sold(orders, k)
  {
    var n := |orders| - 1;
    QtyPositive(orders[n].lines, k.item);
    if id == n {
      SoldNonNegative(orders[..n], k);
    } else {
      HeldWithinSold(orders[..n], id, k);
    }
  }

  lemma {:induction false} SoldNonNegative(orders: seq<Order>, k: Key)
    requires LinesOk(orders)
    ensures 0 <= Sold(orders, k)
  {
    if orders != [] {
      SoldNonNegative(orders[..|orders| - 1], k);
      QtyPositive(orders[|orders| - 1].lines, k.item);
    }
  }

  // ---------------------------------------------------------------- one commit

  /** What a caller running alone has read: the stored order, and the stored supply row. */
  ghost predicate FreshRead(db: Db, c: Commit) {
    match c
    case Cancel(id, read) => id < |db.orders| ==> read.date == db.orders[id].date && read.lines == db.orders[id].lines
    case Modify(id, read, lines, notes) =>
      id < |db.orders| ==> read.date == db.orders[id].date && read.lines == db.orders[id].lines && db.orders[id].status != Cancelled
    case SetCapacity(k, read, capacity, cutoffAt) =>
      read == if k in db.supplies then Some(db.supplies[k]) else None
    case _ => true
  }

  /** The new capacity covers what is sold. */
  ghost predicate CoversSold(db: Db, c: Commit) {
    c.SetCapacity? ==> c.capacity >= Sold(db.orders, c.key)
  }

  lemma PlaceSums(db: Db, o: Order, action: Action, k: Key)
    requires WellFormed(db) && PlaceTx(db, o, action).Some? && o.status == Placed
    ensures var db' := PlaceTx(db, o, action).value;
            && AllPositive(o.lines)
            && Sold(db'.orders, k) == Sold(db.orders, k) + Held(o, k)
            && (k in db.supplies ==> db'.supplies[k] == db.supplies[k].(remain := db.supplies[k].remain - Held(o, k)))
            && (k in db.supplies ==> 0 <= Held(o, k) <= db.supplies[k].remain)
            && (k !in db.supplies ==> Held(o, k) == 0)
  {
    SoldAppend(db.orders, o, k);
    QtyPositive(o.lines, k.item);
    if o.date == k.date && Mentions(o.lines, k.item) {
      var i :| 0 <= i < |o.lines| && o.lines[i].item == k.item;
      assert CanTakeItem(db.supplies, o.date, o.lines, o.lines[i].item);
    }
  }

  lemma PlaceKeeps(db: Db, o: Order, action: Action)
    requires WellFormed(db) && PlaceTx(db, o, action).Some? && o.status == Placed
    ensures var db' := PlaceTx(db, o, action).value;
            && WellFormed(db')
            && (Conserved(db) <==> Conserved(db'))
            && (Covered(db) ==> Covered(db'))
  {
    var db' := PlaceTx(db, o, action).value;
    forall k: Key
      ensures Sold(db'.orders, k) == Sold(db.orders, k) + Held(o, k)
      ensures k in db.supplies ==> db'.supplies[k] == db.supplies[k].(remain := db.supplies[k].remain - Held(o, k))
      ensures k in db.supplies ==> 0 <= Held(o, k) <= db.supplies[k].remain
      ensures k !in db.supplies ==> Held(o, k) == 0
    {
      PlaceSums(db, o, action, k);
    }
    PlaceSums(db, o, action, Key(0, 0));
    if Conserved(db') {
      forall k | k in db.supplies ensures db.supplies[k].remain + Sold(db.orders, k) == db.supplies[k].capacity {
        assert k in db'.supplies;
      }
    }
  }

  /** Units of row k that a stale or fresh read claims the order holds. */
  function Claimed(read: Order, k: Key): int {
    if read.date == k.date then QtyOf(read.lines, k.item) else 0
  }

  lemma CancelSums(db: Db, id: nat, read: Order, k: Key)
    requires WellFormed(db) && CancelTx(db, id, read).Some?
    ensures var db' := CancelTx(db, id, read).value;
            && Sold(db'.orders, k) == Sold(db.orders, k) - Held(db.orders[id], k)
            && 0 <= Held(db.orders[id], k) <= Sold(db.orders, k)
            && 0 <= Claimed(read, k)
            && (k in db.supplies ==>
                  db'.supplies[k] == db.supplies[k].(remain := Min(db.supplies[k].remain + Claimed(read, k), db.supplies[k].capacity)))
  {
    var o := db.orders[id];
    SoldUpdate(db.orders, id, o.(status := Cancelled), k);
    HeldWithinSold(db.orders, id, k);
    QtyPositive(read.lines, k.item);
  }

  lemma CancelWellFormed(db: Db, id: nat, read: Order)
    requires WellFormed(db) && CancelTx(db, id, read).Some?
    ensures WellFormed(CancelTx(db, id, read).value)
  {
    var db' := CancelTx(db, id, read).value;
    forall k: Key
      ensures k in db'.supplies ==> 0 <= db'.supplies[k].remain <= db'.supplies[k].capacity
      ensures k !in db'.supplies ==> Sold(db'.orders, k) == 0
    {
      CancelSums(db, id, read, k);
    }
  }

  /**
   * A cancel commit keeps conservation exactly when, on every row, the units it read are the units stored; the one
   * exception the capped restore allows is a row on which this order holds everything sold and the read is larger.
   */
  lemma StaleCancelExactly(db: Db, id: nat, read: Order)
    requires Conserved(db) && CancelTx(db, id, read).Some?
    ensures Conserved(CancelTx(db, id, read).value) <==>
            forall k | k in db.supplies ::
              var stored := Held(db.orders[id], k);
              Claimed(read, k) == stored || (stored == Sold(db.orders, k) && Claimed(read, k) > stored)
  {
    var db' := CancelTx(db, id, read).value;
    CancelWellFormed(db, id, read);
    forall k | k in db.supplies
      ensures var stored := Held(db.orders[id], k);
              db'.supplies[k].remain + Sold(db'.orders, k) == db'.supplies[k].capacity <==>
              (Claimed(read, k) == stored || (stored == Sold(db.orders, k) && Claimed(read, k) > stored))
    {
      CancelSums(db, id, read, k);
    }
    if Conserved(db') {
      forall k | k in db.supplies
        ensures Claimed(read, k) == Held(db.orders[id], k) || (Held(db.orders[id], k) == Sold(db.orders, k) && Claimed(read, k) > Held(db.orders[id], k))
      {
        assert k in db'.supplies;
      }
    }
  }

  lemma ModifySums(db: Db, id: nat, read: Order, lines: seq<Line>, notes: string, k: Key)
    requires WellFormed(db) && ModifyTx(db, id, read, lines, notes).Some? && read.date == db.orders[id].date
    ensures var db' := ModifyTx(db, id, read, lines, notes).value;
            && Sold(db'.orders, k) == Sold(db.orders, k) - Held(db.orders[id], k) + Held(db'.orders[id], k)
            && 0 <= Held(db.orders[id], k) <= Sold(db.orders, k)
            && 0 <= QtyOf(lines, k.item)
            && (k in db.supplies && k.date == read.date ==>
                  db'.supplies[k] == Shift(db.supplies[k], NetDelta(read.lines, lines, k.item)))
            && (k in db.supplies && k.date != read.date ==> db'.supplies[k] == db.supplies[k])
            && (k.date == read.date ==> DeltaFits(db.supplies, read.date, k.item, NetDelta(read.lines, lines, k.item)))
  {
    var o := db.orders[id];
    var o' := o.(lines := lines, total := TotalOf(lines), notes := notes);
    SoldUpdate(db.orders, id, o', k);
    HeldWithinSold(db.orders, id, k);
    QtyPositive(lines, k.item);
    if k.date == read.date {
      if Mentions(read.lines, k.item) {
        var i :| 0 <= i < |read.lines| && read.lines[i].item == k.item;
      } else if Mentions(lines, k.item) {
        var i :| 0 <= i < |lines| && lines[i].item == k.item;
      } else {
        QtyUnmentioned(read.lines, k.item);
      }
    }
  }

  /** Modifying an order that is not cancelled, with lines read in agreement on the rows that do not exist. */
  lemma ModifyWellFormed(db: Db, id: nat, read: Order, lines: seq<Line>, notes: string)
    requires WellFormed(db) && ModifyTx(db, id, read, lines, notes).Some? && read.date == db.orders[id].date
    requires forall k: Key | k !in db.supplies :: Claimed(read, k) == 0
    ensures WellFormed(ModifyTx(db, id, read, lines, notes).value)
  {
    var db' := ModifyTx(db, id, read, lines, notes).value;
    forall k: Key
      ensures k in db'.supplies ==> 0 <= db'.supplies[k].remain <= db'.supplies[k].capacity
      ensures k !in db'.supplies ==> Sold(db'.orders, k) == 0
    {
      ModifySums(db, id, read, lines, notes, k);
    }
  }

  /** What a modification must have read on row k for the row to stay in balance. */
  ghost predicate ReadBalances(db: Db, id: nat, read: Order, lines: seq<Line>, k: Key)
    requires id < |db.orders|
  {
    var stored, claimed := Held(db.orders[id], k), Claimed(read, k);
    var desired := if k.date == read.date then QtyOf(lines, k.item) else 0;
    if db.orders[id].status != Cancelled then
      claimed == stored || (desired == 0 && stored == Sold(db.orders, k) && claimed > stored)
    else
      claimed == desired || (claimed > desired && Sold(db.orders, k) == 0)
  }

  /**
   * The replacement is not conditional on the status. For a live order a modify commit keeps conservation exactly when
   * it read the stored units (again up to the cap); on an order cancelled meanwhile it keeps it exactly when the lists
   * it read and writes need the same units, or it only returns units to a row that has sold none.
   */
  lemma StaleModifyExactly(db: Db, id: nat, read: Order, lines: seq<Line>, notes: string)
    requires Conserved(db) && ModifyTx(db, id, read, lines, notes).Some? && read.date == db.orders[id].date
    requires forall k: Key | k !in db.supplies :: Claimed(read, k) == 0
    ensures Conserved(ModifyTx(db, id, read, lines, notes).value) <==>
            forall k | k in db.supplies :: ReadBalances(db, id, read, lines, k)
  {
    var db' := ModifyTx(db, id, read, lines, notes).value;
    ModifyWellFormed(db, id, read, lines, notes);
    forall k | k in db.supplies
      ensures db'.supplies[k].remain + Sold(db'.orders, k) == db'.supplies[k].capacity <==> ReadBalances(db, id, read, lines, k)
    {
      ModifySums(db, id, read, lines, notes, k);
    }
    if Conserved(db') {
      forall k | k in db.supplies ensures ReadBalances(db, id, read, lines, k) {
        assert k in db'.supplies;
      }
    }
  }

  /** The row that SetCapacity stores from a read, for a read within the table's constraints. */
  lemma CapacityRow(db: Db, k: Key, read: Option<Supply>, capacity: int, cutoffAt: int)
    requires WellFormed(db) && 0 <= capacity
    requires read.Some? ==> 0 <= read.value.remain <= read.value.capacity
    ensures SetCapacityTx(db, k, read, capacity, cutoffAt).Some?
    ensures var db' := SetCapacityTx(db, k, read, capacity, cutoffAt).value;
            && db'.orders == db.orders && db'.supplies.Keys == db.supplies.Keys + {k}
            && (forall j | j in db.supplies && j != k :: db'.supplies[j] == db.supplies[j])
            && db'.supplies[k].capacity == capacity
            && db'.supplies[k].cutoffAt == cutoffAt && db'.supplies[k].soldOut == (k in db.supplies && db.supplies[k].soldOut)
            && var sold := if read.None? then 0 else read.value.capacity - read.value.remain;
               db'.supplies[k].remain == if capacity < sold then 0 else capacity - sold
  {
  }

  /** A capacity change keeps conservation exactly when the sold count it read is the true one and fits the new capacity. */
  lemma CapacityExactly(db: Db, k: Key, read: Option<Supply>, capacity: int, cutoffAt: int)
    requires Conserved(db) && 0 <= capacity
    requires read.Some? ==> 0 <= read.value.remain <= read.value.capacity
    ensures SetCapacityTx(db, k, read, capacity, cutoffAt).Some?
    ensures Conserved(SetCapacityTx(db, k, read, capacity, cutoffAt).value) <==>
            var readSold := if read.None? then 0 else read.value.capacity - read.value.remain;
            if capacity >= readSold then readSold == Sold(db.orders, k) else capacity == Sold(db.orders, k)
  {
    CapacityRow(db, k, read, capacity, cutoffAt);
    var db' := SetCapacityTx(db, k, read, capacity, cutoffAt).value;
    if Conserved(db') {
      assert k in db'.supplies;
    }
  }

  /** Commits that touch neither quantities nor stock. */
  lemma SameHoldings(db: Db, db': Db)
    requires WellFormed(db) && |db'.orders| == |db.orders|
    requires db'.supplies.Keys == db.supplies.Keys
    requires forall k | k in db.supplies :: db'.supplies[k].remain == db.supplies[k].remain && db'.supplies[k].capacity == db.supplies[k].capacity
    requires forall i | 0 <= i < |db.orders| ::
               && db'.orders[i].lines == db.orders[i].lines && db'.orders[i].date == db.orders[i].date
               && (db'.orders[i].status == Cancelled <==> db.orders[i].status == Cancelled)
    ensures WellFormed(db') && (Conserved(db) ==> Conserved(db')) && (Covered(db) ==> Covered(db'))
  {
    forall k: Key ensures Sold(db'.orders, k) == Sold(db.orders, k) {
      SoldSame(db'.orders, db.orders, k);
    }
  }

  lemma QuietCommitKeeps(db: Db, c: Commit)
    requires WellFormed(db) && Apply(db, c).Some?
    requires c.MarkReady? || c.Pickup? || c.NoShowOne? || c.CutoffOne? || c.Refund? || c.SetSoldOut?
    ensures var db' := Apply(db, c).value;
            WellFormed(db') && (Conserved(db) ==> Conserved(db')) && (Covered(db) ==> Covered(db'))
  {
    SameHoldings(db, Apply(db, c).value);
  }

  /** A row flagged sold out takes no order that names its item, and lifting the flag offers the same units again. */
  lemma SoldOutStopsSales(db: Db, k: Key, o: Order, action: Action)
    requires k in db.supplies && o.date == k.date && Mentions(o.lines, k.item)
    ensures SetSoldOutTx(db, k, true).Some? && PlaceTx(SetSoldOutTx(db, k, true).value, o, action).None?
    ensures !db.supplies[k].soldOut ==> SetSoldOutTx(SetSoldOutTx(db, k, true).value, k, false) == Some(db)
  {
    var closed := SetSoldOutTx(db, k, true).value;
    var i :| 0 <= i < |o.lines| && o.lines[i].item == k.item;
    assert !CanTakeItem(closed.supplies, o.date, o.lines, o.lines[i].item);
    assert db.supplies[k := db.supplies[k].(soldOut := true)][k := db.supplies[k].(soldOut := false)] == db.supplies[k := db.supplies[k].(soldOut := false)];
    if !db.supplies[k].soldOut { assert db.supplies[k := db.supplies[k]] == db.supplies; }
  }

  /** Every commit on fresh reads keeps conservation, given that a new capacity covers the units sold. */
  lemma CommitConserves(db: Db, c: Commit)
    requires Conserved(db) && FreshRead(db, c) && CoversSold(db, c)
    ensures Conserved(Next(db, c))
  {
    if Apply(db, c).Some? {
      match c
      case Place(o, action) => PlaceKeeps(db, o.(status := Placed), action);
      case Cancel(id, read) => StaleCancelExactly(db, id, read);
      case Modify(id, read, lines, notes) =>
        forall k: Key | k !in db.supplies ensures Claimed(read, k) == 0 {
          HeldWithinSold(db.orders, id, k);
        }
        StaleModifyExactly(db, id, read, lines, notes);
      case SetCapacity(k, read, capacity, cutoffAt) =>
        SoldNonNegative(db.orders, k);
        CapacityExactly(db, k, read, capacity, cutoffAt);
      case _ => QuietCommitKeeps(db, c);
    }
  }

  lemma CancelCovers(db: Db, id: nat, read: Order)
    requires Covered(db) && CancelTx(db, id, read).Some? && FreshRead(db, Cancel(id, read))
    ensures Covered(CancelTx(db, id, read).value)
  {
    var db' := CancelTx(db, id, read).value;
    CancelWellFormed(db, id, read);
    forall k | k in db'.supplies ensures db'.supplies[k].remain + Sold(db'.orders, k) >= db'.supplies[k].capacity {
      CancelSums(db, id, read, k);
    }
  }

  lemma ModifyCovers(db: Db, id: nat, read: Order, lines: seq<Line>, notes: string)
    requires Covered(db) && ModifyTx(db, id, read, lines, notes).Some? && FreshRead(db, Modify(id, read, lines, notes))
    ensures Covered(ModifyTx(db, id, read, lines, notes).value)
  {
    var db' := ModifyTx(db, id, read, lines, notes).value;
    forall k: Key | k !in db.supplies ensures Claimed(read, k) == 0 {
      HeldWithinSold(db.orders, id, k);
    }
    ModifyWellFormed(db, id, read, lines, notes);
    forall k | k in db'.supplies ensures db'.supplies[k].remain + Sold(db'.orders, k) >= db'.supplies[k].capacity {
      ModifySums(db, id, read, lines, notes, k);
    }
  }

  lemma CapacityCovers(db: Db, k: Key, read: Option<Supply>, capacity: int, cutoffAt: int)
    requires Covered(db) && SetCapacityTx(db, k, read, capacity, cutoffAt).Some? && FreshRead(db, SetCapacity(k, read, capacity, cutoffAt))
    ensures Covered(SetCapacityTx(db, k, read, capacity, cutoffAt).value)
  {
    CapacityRow(db, k, read, capacity, cutoffAt);
    SoldNonNegative(db.orders, k);
  }

  /** Without the bound on new capacities no unit is ever lost: the only drift is over-selling after a clamp. */
  lemma CommitCovers(db: Db, c: Commit)
    requires Covered(db) && FreshRead(db, c)
    ensures Covered(Next(db, c))
  {
    if Apply(db, c).Some? {
      match c
      case Place(o, action) => PlaceKeeps(db, o.(status := Placed), action);
      case Cancel(id, read) => CancelCovers(db, id, read);
      case Modify(id, read, lines, notes) => ModifyCovers(db, id, read, lines, notes);
      case SetCapacity(k, read, capacity, cutoffAt) => CapacityCovers(db, k, read, capacity, cutoffAt);
      case _ => QuietCommitKeeps(db, c);
    }
  }
}
