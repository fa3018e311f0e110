/** Vendor settlements, and their agreement with the payroll drafts made from the same orders. */
module Settlement {
  import opened Wrappers
  import opened OrderTypes
  import opened Grouping
  import opened PayrollLedger

  datatype SettlementStatus = Closed | Void

  datatype Row = Row(vendor: nat, start: int, end: int, orderCount: int, portionCount: int, gross: int,
                     orderIds: seq<nat>, status: SettlementStatus)

  datatype SettlementError = InvalidPeriod | NoOrdersInPeriod | PeriodAlreadyClosed | SettlementNotFound | InvalidTransition

  datatype Aggregate = Aggregate(vendor: nat, orderCount: int, portionCount: int, gross: int, orderIds: seq<nat>)

  function VendorFn(orders: seq<Order>): nat -> nat {
    (id: nat) => if id < |orders| then orders[id].vendor else 0
  }

  function PortionFn(orders: seq<Order>): nat -> int {
    (id: nat) => if id < |orders| then SumBy(orders[id].lines, QtyFn()) else 0
  }

  /** One row of the GROUP BY vendor_id query. */
  function AggregateOf(orders: seq<Order>, listing: seq<nat>, vendor: nat): Aggregate {
    var ids := Group(listing, VendorFn(orders), vendor);
    Aggregate(vendor, |ids|, SumBy(ids, PortionFn(orders)), SumBy(ids, TotalFn(orders)), ids)
  }

  function Aggregates(orders: seq<Order>, listing: seq<nat>, vendors: seq<nat>): seq<Aggregate> {
    seq(|vendors|, j requires 0 <= j < |vendors| => AggregateOf(orders, listing, vendors[j]))
  }

  predicate Active(rows: seq<Row>, vendor: nat, start: int, end: int) {
    exists i | 0 <= i < |rows| :: rows[i].vendor == vendor && rows[i].start == start && rows[i].end == end && rows[i].status == Closed
  }

  function RowOf(a: Aggregate, start: int, end: int): Row {
    Row(a.vendor, start, end, a.orderCount, a.portionCount, a.gross, a.orderIds, Closed)
  }

  function RowsOf(aggs: seq<Aggregate>, start: int, end: int): seq<Row> {
    seq(|aggs|, j requires 0 <= j < |aggs| => RowOf(aggs[j], start, end))
  }

  ghost predicate DistinctVendors(aggs: seq<Aggregate>) {
    forall i, j | 0 <= i < j < |aggs| :: aggs[i].vendor != aggs[j].vendor
  }

  predicate NoneActive(rows: seq<Row>, aggs: seq<Aggregate>, start: int, end: int) {
    forall j | 0 <= j < |aggs| :: !Active(rows, aggs[j].vendor, start, end)
  }

  /** At most one closed row per vendor and period: the partial unique index. */
  ghost predicate UniqueActive(rows: seq<Row>) {
    forall i, j | 0 <= i < j < |rows| && rows[i].status == Closed && rows[j].status == Closed ::
      !(rows[i].vendor == rows[j].vendor && rows[i].start == rows[j].start && rows[i].end == rows[j].end)
  }

  /** A closed row over the period with the vendor's numbers and orders as they were summed up. */
  ghost predicate FrozenAs(row: Row, a: Aggregate, start: int, end: int) {
    && row.vendor == a.vendor && row.start == start && row.end == end && row.status == Closed
    && row.orderCount == a.orderCount && row.portionCount == a.portionCount && row.gross == a.gross && row.orderIds == a.orderIds
  }

  class Store {
    var rows: seq<Row>

    constructor ()
      ensures rows == []
    {
      rows := [];
    }

    /** One closed row per vendor with orders in the period, or no row at all. */
    method CloseSettlement(start: int, end: int, aggs: seq<Aggregate>) returns (r: Result<seq<Row>, SettlementError>)
      requires DistinctVendors(aggs)
      modifies this
      ensures start > end ==> r == Failure(SettlementError.InvalidPeriod)
      ensures start <= end && aggs == [] ==> r == Failure(NoOrdersInPeriod)
      ensures start <= end && aggs != [] ==>
                if NoneActive(old(rows), aggs, start, end) then r == Success(RowsOf(aggs, start, end)) else r == Failure(PeriodAlreadyClosed)
      ensures rows == if r.Success? then old(rows) + r.value else old(rows)
      ensures r.Success? <==>
                && start <= end && aggs != []
                && forall i, j | 0 <= i < |old(rows)| && 0 <= j < |aggs| && old(rows)[i].status == Closed ::
                     old(rows)[i].vendor != aggs[j].vendor || old(rows)[i].start != start || old(rows)[i].end != end
      ensures r.Success? ==> |r.value| == |aggs| && forall j | 0 <= j < |aggs| :: FrozenAs(r.value[j], aggs[j], start, end)
      ensures UniqueActive(old(rows)) ==> UniqueActive(rows)
    {
      if start > end { return Failure(SettlementError.InvalidPeriod); }
      if aggs == [] { return Failure(NoOrdersInPeriod); }
      var tx := rows;
      var out := [];
      for j := 0 to |aggs|
        invariant out == RowsOf(aggs[..j], start, end) && tx == rows + out
        invariant NoneActive(rows, aggs[..j], start, end)
      {
        assert forall k | |rows| <= k < |tx| :: tx[k] == RowOf(aggs[k - |rows|], start, end);
        if Active(tx, aggs[j].vendor, start, end) {
          ghost var i :| 0 <= i < |tx| && tx[i].vendor == aggs[j].vendor && tx[i].start == start && tx[i].end == end && tx[i].status == Closed;
          assert i < |rows|;
          assert rows[i] == tx[i];
          return Failure(PeriodAlreadyClosed);
        }
        assert !Active(rows, aggs[j].vendor, start, end) by {
          assert forall i | 0 <= i < |rows| :: rows[i] == tx[i];
        }
        var row := RowOf(aggs[j], start, end);
        tx := tx + [row];
        out := out + [row];
        assert aggs[..j + 1] == aggs[..j] + [aggs[j]];
      }
      assert aggs[..|aggs|] == aggs;
      rows := tx;
      return Success(out);
    }

    /** A closed row becomes void; its frozen numbers and every other row stay. */
    method VoidSettlement(id: nat) returns (r: Result<(), SettlementError>)
      modifies this
      ensures id >= |old(rows)| ==> r == Failure(SettlementNotFound)
      ensures id < |old(rows)| ==> r == if old(rows)[id].status == Closed then Success(()) else Failure(SettlementError.InvalidTransition)
      ensures rows == if r.Success? then old(rows)[id := old(rows)[id].(status := Void)] else old(rows)
      ensures UniqueActive(old(rows)) ==> UniqueActive(rows)
    {
      if id >= |rows| { return Failure(SettlementNotFound); }
      if rows[id].status != Closed { return Failure(SettlementError.InvalidTransition); }
      rows := rows[id := rows[id].(status := Void)];
      return Success(());
    }

    /** A closed period is refused until its rows are voided, and then closes with the same payables. */
    method CloseVoidClose(start: int, end: int, agg: Aggregate) returns (again: Result<seq<Row>, SettlementError>, reopened: Result<seq<Row>, SettlementError>)
      requires start <= end && !Active(rows, agg.vendor, start, end)
      modifies this
      ensures again == Failure(PeriodAlreadyClosed) && reopened == Success([RowOf(agg, start, end)])
    {
      ghost var before := rows;
      var first := CloseSettlement(start, end, [agg]);
      var id := |rows| - 1;
      assert rows[id] == RowOf(agg, start, end);
      assert Active(rows, [agg][0].vendor, start, end);
      again := CloseSettlement(start, end, [agg]);
      var voided := VoidSettlement(id);
      assert forall i | 0 <= i < id :: rows[i] == before[i];
      assert !Active(rows, [agg][0].vendor, start, end);
      assert RowsOf([agg], start, end) == [RowOf(agg, start, end)];
      reopened := CloseSettlement(start, end, [agg]);
    }
  }

  // ---------------------------------------------------------------- agreement with payroll

  function SumAmounts(entries: seq<Entry>): int {
    if entries == [] then 0 else SumAmounts(entries[..|entries| - 1]) + entries[|entries| - 1].amount
  }

  function SumGross(rows: seq<Row>): int {
    if rows == [] then 0 else SumGross(rows[..|rows| - 1]) + rows[|rows| - 1].gross
  }

  function EntryIds(entries: seq<Entry>): seq<nat> {
    if entries == [] then [] else EntryIds(entries[..|entries| - 1]) + entries[|entries| - 1].orderIds
  }

  function RowIds(rows: seq<Row>): seq<nat> {
    if rows == [] then [] else RowIds(rows[..|rows| - 1]) + rows[|rows| - 1].orderIds
  }

  lemma {:induction false} DraftSums(orders: seq<Order>, batch: nat, listing: seq<nat>, users: seq<nat>)
    ensures SumAmounts(DraftEntries(orders, batch, listing, users)) == GroupSums(listing, UserFn(orders), TotalFn(orders), users)
    ensures EntryIds(DraftEntries(orders, batch, listing, users)) == Concat(listing, UserFn(orders), users)
  {
    if users != [] {
      var init := users[..|users| - 1];
      DraftSums(orders, batch, listing, init);
      assert DraftEntries(orders, batch, listing, users)[..|users| - 1] == DraftEntries(orders, batch, listing, init);
    }
  }

  lemma {:induction false} RowSums(orders: seq<Order>, listing: seq<nat>, vendors: seq<nat>, start: int, end: int)
    ensures SumGross(RowsOf(Aggregates(orders, listing, vendors), start, end)) == GroupSums(listing, VendorFn(orders), TotalFn(orders), vendors)
    ensures RowIds(RowsOf(Aggregates(orders, listing, vendors), start, end)) == Concat(listing, VendorFn(orders), vendors)
  {
    if vendors != [] {
      var init := vendors[..|vendors| - 1];
      RowSums(orders, listing, init, start, end);
      assert RowsOf(Aggregates(orders, listing, vendors), start, end)[..|vendors| - 1] == RowsOf(Aggregates(orders, listing, init), start, end);
    }
  }

  function SumCounts(rows: seq<Row>): int {
    if rows == [] then 0 else SumCounts(rows[..|rows| - 1]) + rows[|rows| - 1].orderCount
  }

  function SumPortions(rows: seq<Row>): int {
    if rows == [] then 0 else SumPortions(rows[..|rows| - 1]) + rows[|rows| - 1].portionCount
  }

  function One(): nat -> int { (id: nat) => 1 }

  lemma {:induction false} SumOnes(ids: seq<nat>)
    ensures SumBy(ids, One()) == |ids|
  {
    if ids != [] { SumOnes(ids[..|ids| - 1]); }
  }

  lemma {:induction false} CountSums(orders: seq<Order>, listing: seq<nat>, vendors: seq<nat>, start: int, end: int)
    ensures SumCounts(RowsOf(Aggregates(orders, listing, vendors), start, end)) == GroupSums(listing, VendorFn(orders), One(), vendors)
    ensures SumPortions(RowsOf(Aggregates(orders, listing, vendors), start, end)) == GroupSums(listing, VendorFn(orders), PortionFn(orders), vendors)
  {
    if vendors != [] {
      var init, v := vendors[..|vendors| - 1], vendors[|vendors| - 1];
      CountSums(orders, listing, init, start, end);
      assert RowsOf(Aggregates(orders, listing, vendors), start, end)[..|vendors| - 1] == RowsOf(Aggregates(orders, listing, init), start, end);
      SumOnes(Group(listing, VendorFn(orders), v));
    }
  }

  /** A vendor's row: exactly the vendor's orders in the order listed, how many they are, the units of their lines, and their totals. */
  lemma RowMeans(orders: seq<Order>, listing: seq<nat>, vendor: nat, id: nat)
    requires forall k | k in listing :: k < |orders|
    ensures var a := AggregateOf(orders, listing, vendor);
            && a.vendor == vendor && a.orderCount == |a.orderIds|
            && a.portionCount == SumBy(a.orderIds, PortionFn(orders)) && a.gross == SumBy(a.orderIds, TotalFn(orders))
            && (id in a.orderIds <==> id in listing && orders[id].vendor == vendor)
  {
    InGroup(listing, VendorFn(orders), vendor, id);
  }

  /** All rows together count every listed order once and every unit of every listed order once. */
  lemma SettlementCounts(orders: seq<Order>, listing: seq<nat>, vendors: seq<nat>, start: int, end: int)
    requires ListsKeys(vendors, listing, VendorFn(orders))
    ensures var rows := RowsOf(Aggregates(orders, listing, vendors), start, end);
            SumCounts(rows) == |listing| && SumPortions(rows) == SumBy(listing, PortionFn(orders))
  {
    CountSums(orders, listing, vendors, start, end);
    PartitionSum(listing, VendorFn(orders), One(), vendors);
    PartitionSum(listing, VendorFn(orders), PortionFn(orders), vendors);
    SumOnes(listing);
  }

  /** Two listings of the same orders are rearrangements of each other. */
  lemma {:induction false} SameMembers(a: seq<nat>, b: seq<nat>)
    requires Distinct(a) && Distinct(b) && forall x :: x in a <==> x in b
    ensures multiset(a) == multiset(b)
  {
    forall x ensures multiset(a)[x] == multiset(b)[x] {
      CountDistinct(a, x);
      CountDistinct(b, x);
    }
  }

  lemma {:induction false} CountDistinct(a: seq<nat>, x: nat)
    requires Distinct(a)
    ensures multiset(a)[x] == if x in a then 1 else 0
  {
    if a != [] {
      var init, last := a[..|a| - 1], a[|a| - 1];
      assert a == init + [last];
      CountDistinct(init, x);
    }
  }

  /**
   * From the same orders and period, whatever order the two queries list them in and whatever order the groups come in:
   * the user entries and the vendor rows add up to the same money, that of all orders, and cover the same orders once.
   */
  lemma DraftAgreesWithSettlement(orders: seq<Order>, start: int, end: int, batch: nat,
                                  drafted: seq<nat>, users: seq<nat>, settled: seq<nat>, vendors: seq<nat>)
    requires ListsCharged(orders, start, end, drafted) && ListsUsers(orders, drafted, users)
    requires ListsCharged(orders, start, end, settled) && ListsKeys(vendors, settled, VendorFn(orders))
    ensures var entries := DraftEntries(orders, batch, drafted, users);
            var rows := RowsOf(Aggregates(orders, settled, vendors), start, end);
            && SumAmounts(entries) == SumGross(rows) == SumBy(drafted, TotalFn(orders))
            && multiset(EntryIds(entries)) == multiset(RowIds(rows)) == multiset(drafted)
  {
    DraftSums(orders, batch, drafted, users);
    RowSums(orders, settled, vendors, start, end);
    PartitionSum(drafted, UserFn(orders), TotalFn(orders), users);
    PartitionSum(settled, VendorFn(orders), TotalFn(orders), vendors);
    PartitionConcat(drafted, UserFn(orders), users);
    PartitionConcat(settled, VendorFn(orders), vendors);
    SameMembers(drafted, settled);
    SumPermutation(drafted, settled, TotalFn(orders));
  }

  // ---------------------------------------------------------------- settling after refunds

  function ChargedFn(orders: seq<Order>): nat -> int {
    (id: nat) => if id < |orders| && Charged(orders[id]) then orders[id].total else 0
  }

  function ChargedKey(orders: seq<Order>): nat -> nat {
    (id: nat) => if id < |orders| && Charged(orders[id]) then 1 else 0
  }

  /** What the entries of a batch still deduct. */
  function NetOf(entries: seq<Entry>, batch: nat): int {
    if entries == [] then 0
    else
      var e := entries[|entries| - 1];
      NetOf(entries[..|entries| - 1], batch) + if e.batch == batch then e.amount - e.refunded else 0
  }

  function IdsOf(entries: seq<Entry>, batch: nat): seq<nat> {
    if entries == [] then []
    else
      var e := entries[|entries| - 1];
      IdsOf(entries[..|entries| - 1], batch) + if e.batch == batch then e.orderIds else []
  }

  lemma {:induction false} SumDifference(ids: seq<nat>, f: nat -> int, g: nat -> int, h: nat -> int)
    requires forall i | 0 <= i < |ids| :: h(ids[i]) == f(ids[i]) - g(ids[i])
    ensures SumBy(ids, h) == SumBy(ids, f) - SumBy(ids, g)
  {
    if ids != [] { SumDifference(ids[..|ids| - 1], f, g, h); }
  }

  lemma {:induction false} NetIsCharged(l: Ledger, n: nat, batch: nat)
    requires Sound(l) && n <= |l.entries|
    requires forall i: nat | i < n :: l.entries[i].refunded == SumBy(l.entries[i].orderIds, RefundedFn(l.orders))
    ensures NetOf(l.entries[..n], batch) == SumBy(IdsOf(l.entries[..n], batch), ChargedFn(l.orders))
  {
    if n > 0 {
      NetIsCharged(l, n - 1, batch);
      assert l.entries[..n][..n - 1] == l.entries[..n - 1];
      var e := l.entries[n - 1];
      assert EntryOk(l, n - 1);
      SumDifference(e.orderIds, TotalFn(l.orders), RefundedFn(l.orders), ChargedFn(l.orders));
      SumConcat(IdsOf(l.entries[..n - 1], batch), e.orderIds, ChargedFn(l.orders));
      assert IdsOf(l.entries[..n - 1], batch) + [] == IdsOf(l.entries[..n - 1], batch);
    }
  }

  lemma {:induction false} InIdsOf(entries: seq<Entry>, batch: nat, id: nat)
    ensures id in IdsOf(entries, batch) <==> exists i: nat :: i < |entries| && entries[i].batch == batch && id in entries[i].orderIds
  {
    if entries != [] {
      var init, e := entries[..|entries| - 1], entries[|entries| - 1];
      InIdsOf(init, batch, id);
      if id in IdsOf(entries, batch) && id in IdsOf(init, batch) {
        var i: nat :| i < |init| && init[i].batch == batch && id in init[i].orderIds;
        assert entries[i] == init[i];
      }
      if i: nat :| i < |entries| && entries[i].batch == batch && id in entries[i].orderIds {
        if i < |init| { assert init[i] == entries[i]; }
      }
    }
  }

  lemma {:induction false} IdsOfDistinct(l: Ledger, n: nat, batch: nat)
    requires Sound(l) && n <= |l.entries|
    ensures Distinct(IdsOf(l.entries[..n], batch))
  {
    if n > 0 {
      IdsOfDistinct(l, n - 1, batch);
      assert l.entries[..n][..n - 1] == l.entries[..n - 1];
      assert EntryOk(l, n - 1);
      var a, b := IdsOf(l.entries[..n - 1], batch), l.entries[n - 1].orderIds;
      forall x | x in a ensures x !in b {
        InIdsOf(l.entries[..n - 1], batch, x);
      }
      DistinctConcat(a, b);
    }
  }

  lemma {:induction false} ChargedPart(orders: seq<Order>, ids: seq<nat>)
    ensures SumBy(ids, ChargedFn(orders)) == SumBy(Group(ids, ChargedKey(orders), 1), TotalFn(orders))
  {
    if ids != [] {
      var init, last := ids[..|ids| - 1], ids[|ids| - 1];
      ChargedPart(orders, init);
      SumSnoc(Group(init, ChargedKey(orders), 1), last, TotalFn(orders));
      assert Group(init, ChargedKey(orders), 1) + [] == Group(init, ChargedKey(orders), 1);
    }
  }

  /**
   * Drafted first and settled after any reversals: as long as every order still charged in the period went into the
   * batch, the vendors are paid exactly what the batch still deducts, amounts minus refunds.
   */
  lemma SettlementMatchesNetDraft(l: Ledger, batch: nat, settled: seq<nat>, vendors: seq<nat>)
    requires Sound(l) && BookMatches(l) && batch < |l.batches|
    requires ListsCharged(l.orders, l.batches[batch].start, l.batches[batch].end, settled)
    requires ListsKeys(vendors, settled, VendorFn(l.orders))
    requires forall id | id in settled :: exists i: nat :: i < |l.entries| && l.entries[i].batch == batch && id in l.entries[i].orderIds
    ensures SumGross(RowsOf(Aggregates(l.orders, settled, vendors), l.batches[batch].start, l.batches[batch].end)) == NetOf(l.entries, batch)
  {
    var n := |l.entries|;
    assert l.entries[..n] == l.entries;
    var ids, key := IdsOf(l.entries, batch), ChargedKey(l.orders);
    NetIsCharged(l, n, batch);
    ChargedPart(l.orders, ids);
    IdsOfDistinct(l, n, batch);
    GroupDistinct(ids, key, 1);
    forall id ensures id in Group(ids, key, 1) <==> id in settled {
      InGroup(ids, key, 1, id);
      InIdsOf(l.entries, batch, id);
      if id in Group(ids, key, 1) {
        var i: nat :| i < |l.entries| && l.entries[i].batch == batch && id in l.entries[i].orderIds;
        assert EntryOk(l, i);
      }
    }
    SameMembers(settled, Group(ids, key, 1));
    SumPermutation(settled, Group(ids, key, 1), TotalFn(l.orders));
    RowSums(l.orders, settled, vendors, l.batches[batch].start, l.batches[batch].end);
    PartitionSum(settled, VendorFn(l.orders), TotalFn(l.orders), vendors);
  }
}
