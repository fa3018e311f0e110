/** Runs from empty tables in which refunds and entries come apart. */
module RefundCases {
  import opened Wrappers
  import opened OrderTypes
  import opened Grouping
  import opened PayrollLedger
  import opened Refunds
  import opened RefundBound

  const PLACED_ORDER: Order := Order(1, 2, 3, 5, Placed, 100, "", 0, None, [Line(7, 1, 100)])

  const PICKED_UP: Order := PLACED_ORDER.(status := PickedUp)

  const THE_ENTRY: Entry := Entry(0, 1, [0], 100, 0)

  function Ordered(batches: seq<Batch>, entries: seq<Entry>, disputes: seq<Dispute>): Ledger {
    Ledger([PICKED_UP], batches, entries, disputes, [])
  }

  /** A legal run of the steps from l ends in `end`. */
  ghost predicate Reaches(l: Ledger, steps: seq<Step>, end: Ledger) {
    LegalRun(l, steps) && RunAll(l, steps) == end
  }

  lemma First(l: Ledger, s: Step, next: Ledger, rest: seq<Step>, end: Ledger)
    requires Legal(l, s) && Perform(l, s) == next && Reaches(next, rest, end)
    ensures Reaches(l, [s] + rest, end)
  {
    assert ([s] + rest)[1..] == rest;
  }

  lemma Last(l: Ledger, s: Step, end: Ledger)
    requires Legal(l, s) && Perform(l, s) == end
    ensures Reaches(l, [s], end)
  {
    assert Reaches(end, [], end);
    First(l, s, end, [], end);
    assert [s] + [] == [s];
  }

  /** The order of user 1 is placed and picked up. */
  lemma OrderComesFirst(rest: seq<Step>, end: Ledger)
    requires Reaches(Ordered([], [], []), rest, end)
    ensures Reaches(EMPTY_LEDGER, [NewOrder(PLACED_ORDER)] + ([MoveOrder(0, PICKED_UP)] + rest), end)
  {
    var placed := EMPTY_LEDGER.(orders := [PLACED_ORDER]);
    assert Perform(placed, MoveOrder(0, PICKED_UP)) == Ordered([], [], []);
    First(placed, MoveOrder(0, PICKED_UP), Ordered([], [], []), rest, end);
    assert [] + [PLACED_ORDER] == [PLACED_ORDER];
    First(EMPTY_LEDGER, NewOrder(PLACED_ORDER), placed, [MoveOrder(0, PICKED_UP)] + rest, end);
  }

  /** The order table has the one order, settled. */
  ghost predicate OneSettled(orders: seq<Order>) {
    |orders| == 1 && orders[0].user == 1 && orders[0].total == 100 && orders[0].date == 5 && Settled(orders[0])
  }

  lemma DraftOf(orders: seq<Order>)
    requires OneSettled(orders)
    ensures DraftEntries(orders, 0, [0], [1]) == [THE_ENTRY]
  {
    Singleton<nat>(0, UserFn(orders), TotalFn(orders));
  }

  lemma ListingOf(orders: seq<Order>)
    requires OneSettled(orders)
    ensures ListsUsers(orders, [0], [1]) && ListsSettled(orders, 0, 9, [0])
  {
    var listing: seq<nat> := [0];
    assert UserFn(orders)(listing[0]) == 1;
    assert HasUser(orders, listing, 1);
  }

  /** A draft over days 0 to 9 charges it to its user. */
  lemma DraftComesNext(disputes: seq<Dispute>)
    ensures var l, s := Ordered([], [], disputes), Build(0, 9, [0], [1]);
            Legal(l, s) && Perform(l, s) == Ordered([Batch(0, 9, None)], [THE_ENTRY], disputes)
  {
    var l := Ordered([], [], disputes);
    DraftOf(l.orders);
    ListingOf(l.orders);
    assert ListsCharged(l.orders, 0, 9, [0]);
  }

  // ---------------------------------------------------------------- an entry-less dispute

  function DisputedBeforeDraft(): seq<Step> {
    [NewOrder(PLACED_ORDER)] + ([MoveOrder(0, PICKED_UP)] +
    ([OpenByOrder(0, 1)] + ([Build(0, 9, [0], [1])] + [Resolve(0, ResolvedRefund, 100)])))
  }

  function EntrylessEnd(): Ledger {
    Ledger([PLACED_ORDER.(status := Refunded)], [Batch(0, 9, None)], [THE_ENTRY],
           [Dispute(None, 0, 1, ResolvedRefund, 100)], [DisputeResolved(0, 0, ResolvedRefund, 100)])
  }

  lemma EntrylessReached()
    ensures Reaches(EMPTY_LEDGER, DisputedBeforeDraft(), EntrylessEnd())
  {
    var d := Dispute(None, 0, 1, Open, 0);
    var drafted, last := Ordered([Batch(0, 9, None)], [THE_ENTRY], [d]), Resolve(0, ResolvedRefund, 100);
    Last(drafted, last, EntrylessEnd());
    DraftComesNext([d]);
    First(Ordered([], [], [d]), Build(0, 9, [0], [1]), drafted, [last], EntrylessEnd());
    assert [] + [d] == [d];
    First(Ordered([], [], []), OpenByOrder(0, 1), Ordered([], [], [d]), [Build(0, 9, [0], [1])] + [last], EntrylessEnd());
    OrderComesFirst([OpenByOrder(0, 1)] + ([Build(0, 9, [0], [1])] + [last]), EntrylessEnd());
  }

  /** Disputed while in no entry, drafted, and refunded in full: the order is refunded and its entry has nothing of it. */
  lemma EntrylessRefundMissed()
    ensures LegalRun(EMPTY_LEDGER, DisputedBeforeDraft())
    ensures var l := RunAll(EMPTY_LEDGER, DisputedBeforeDraft());
            && |l.orders| == 1 && l.orders[0].status == Refunded && l.orders[0].total == 100
            && l.entries == [Entry(0, 1, [0], 100, 0)]
            && !BookMatches(l)
  {
    EntrylessReached();
    var l := EntrylessEnd();
    var ids: seq<nat> := [];
    SumSnoc(ids, 0, RefundedFn(l.orders));
    assert ids + [0] == [0];
    assert l.entries[0].refunded != SumBy(l.entries[0].orderIds, RefundedFn(l.orders));
  }

  // ---------------------------------------------------------------- two disputes over one order

  function TwoDisputes(first: int, second: int): seq<Step> {
    [NewOrder(PLACED_ORDER)] + ([MoveOrder(0, PICKED_UP)] + ([Build(0, 9, [0], [1])] +
    ([OpenByEntry(0, 0, 1)] + ([OpenByEntry(0, 0, 1)] + ([Resolve(0, ResolvedRefund, first)] + [Resolve(1, ResolvedRefund, second)])))))
  }

  function AfterFirst(first: int): Ledger {
    var d := Dispute(Some(0), 0, 1, Open, 0);
    Ledger([PLACED_ORDER.(status := Refunded)], [Batch(0, 9, None)], [THE_ENTRY.(refunded := first)],
           [d.(status := ResolvedRefund, refund := first), d], [DisputeResolved(0, 0, ResolvedRefund, first)])
  }

  function AfterBoth(first: int, second: int): Ledger {
    var d, l := Dispute(Some(0), 0, 1, Open, 0), AfterFirst(first);
    l.(entries := [THE_ENTRY.(refunded := first + second)],
       disputes := [d.(status := ResolvedRefund, refund := first), d.(status := ResolvedRefund, refund := second)],
       notes := l.notes + [DisputeResolved(1, 0, ResolvedRefund, second)])
  }

  lemma BothResolved(first: int, second: int)
    requires 0 <= first <= 100 && 0 <= second <= 100
    ensures var d := Dispute(Some(0), 0, 1, Open, 0);
            Reaches(Ordered([Batch(0, 9, None)], [THE_ENTRY], [d, d]),
                    [Resolve(0, ResolvedRefund, first)] + [Resolve(1, ResolvedRefund, second)], AfterBoth(first, second))
  {
    var d := Dispute(Some(0), 0, 1, Open, 0);
    var l, a, b := Ordered([Batch(0, 9, None)], [THE_ENTRY], [d, d]), Resolve(0, ResolvedRefund, first), Resolve(1, ResolvedRefund, second);
    assert Perform(AfterFirst(first), b) == AfterBoth(first, second);
    Last(AfterFirst(first), b, AfterBoth(first, second));
    assert Perform(l, a) == AfterFirst(first);
    First(l, a, AfterFirst(first), [b], AfterBoth(first, second));
  }

  lemma TwoDisputesReached(first: int, second: int)
    requires 0 <= first <= 100 && 0 <= second <= 100
    ensures Reaches(EMPTY_LEDGER, TwoDisputes(first, second), AfterBoth(first, second))
  {
    var d := Dispute(Some(0), 0, 1, Open, 0);
    var end, open_ := AfterBoth(first, second), OpenByEntry(0, 0, 1);
    var both := [Resolve(0, ResolvedRefund, first)] + [Resolve(1, ResolvedRefund, second)];
    var drafted := Ordered([Batch(0, 9, None)], [THE_ENTRY], []);
    BothResolved(first, second);
    assert [d] + [d] == [d, d] && [] + [d] == [d];
    First(drafted.(disputes := [d]), open_, drafted.(disputes := [d, d]), both, end);
    First(drafted, open_, drafted.(disputes := [d]), [open_] + both, end);
    DraftComesNext([]);
    First(Ordered([], [], []), Build(0, 9, [0], [1]), drafted, [open_] + ([open_] + both), end);
    OrderComesFirst([Build(0, 9, [0], [1])] + ([open_] + ([open_] + both)), end);
  }

  /** Both resolved with any part of the order's 100: every refund fits exactly when the two parts are within it together. */
  lemma TwoDisputesExactly(first: int, second: int)
    requires 0 <= first <= 100 && 0 <= second <= 100
    ensures LegalRun(EMPTY_LEDGER, TwoDisputes(first, second))
    ensures RunAll(EMPTY_LEDGER, TwoDisputes(first, second)).entries == [Entry(0, 1, [0], 100, first + second)]
    ensures Within(RunAll(EMPTY_LEDGER, TwoDisputes(first, second))) <==> first + second <= 100
  {
    TwoDisputesReached(first, second);
    var l := AfterBoth(first, second);
    assert Within(l) <==> EntryWithin(l.entries[0]);
  }

  /** Two full refunds: 200 refunded out of an amount of 100. */
  lemma TwoDisputesOverRefund()
    ensures LegalRun(EMPTY_LEDGER, TwoDisputes(100, 100))
    ensures RunAll(EMPTY_LEDGER, TwoDisputes(100, 100)).entries == [Entry(0, 1, [0], 100, 200)]
    ensures !AlwaysWithin(EMPTY_LEDGER, TwoDisputes(100, 100)) && !AllFit(EMPTY_LEDGER, TwoDisputes(100, 100))
  {
    TwoDisputesExactly(100, 100);
    var steps := TwoDisputes(100, 100);
    assert steps[..|steps|] == steps;
    assert !Within(RunAll(EMPTY_LEDGER, steps[..|steps|]));
    BoundedRunExactly(steps);
  }
}
