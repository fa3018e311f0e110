/** Two payroll calls that read before either commits. */
module RaceCases {
  import opened Wrappers
  import opened OrderTypes
  import opened Grouping
  import opened PayrollLedger
  import opened Refunds
  import opened RefundBound
  import opened RefundCases
  import LedgerRaces

  /** The order is refunded and its entry has nothing of it. */
  ghost predicate Missed(l: Ledger) {
    l.orders == [PLACED_ORDER.(status := Refunded)] && l.entries == [THE_ENTRY]
  }

  lemma MissedIsUnbooked(l: Ledger)
    requires Missed(l)
    ensures !BookMatches(l)
  {
    var ids: seq<nat> := [];
    SumSnoc(ids, 0, RefundedFn(l.orders));
    assert ids + [0] == [0];
    assert l.entries[0].refunded != SumBy(l.entries[0].orderIds, RefundedFn(l.orders));
  }

  function Drafting(): LedgerRaces.Commit { LedgerRaces.DraftTx(0, 9, [0], [1]) }

  function Reversing(): LedgerRaces.Commit { LedgerRaces.ReverseTx(0, PickedUp, None) }

  /** The tables after the order was placed and picked up are reached by a legal run. */
  lemma PickedUpReached()
    ensures Reaches(EMPTY_LEDGER, [NewOrder(PLACED_ORDER)] + ([MoveOrder(0, PICKED_UP)] + []), Ordered([], [], []))
  {
    OrderComesFirst([], Ordered([], [], []));
  }

  /** The draft listed the order before the reversal: its entry still charges the refunded order. */
  lemma DraftAfterReversal()
    ensures var reversed := LedgerRaces.Next(Ordered([], [], []), Reversing());
            var drafted := LedgerRaces.Next(reversed, Drafting());
            && LedgerRaces.FromHistory(reversed, Drafting())
            && Missed(drafted) && !BookMatches(drafted)
  {
    var reversed := LedgerRaces.Next(Ordered([], [], []), Reversing());
    assert reversed.orders == [PLACED_ORDER.(status := Refunded)];
    DraftOf(reversed.orders);
    ListingOf(reversed.orders);
    MissedIsUnbooked(LedgerRaces.Next(reversed, Drafting()));
  }

  /** The reversal found no entry before the draft made one: the refund is paid into no entry. */
  lemma ReversalAfterDraft()
    ensures var drafted := LedgerRaces.Next(Ordered([], [], []), Drafting());
            var reversed := LedgerRaces.Next(drafted, Reversing());
            && LedgerRaces.FromHistory(drafted, Reversing())
            && Missed(reversed) && !BookMatches(reversed)
  {
    DraftOf([PICKED_UP]);
    var drafted := LedgerRaces.Next(Ordered([], [], []), Drafting());
    assert drafted.entries == [THE_ENTRY];
    MissedIsUnbooked(LedgerRaces.Next(drafted, Reversing()));
  }

  lemma DisputedReached()
    ensures Reaches(EMPTY_LEDGER, [NewOrder(PLACED_ORDER)] + ([MoveOrder(0, PICKED_UP)] + ([Build(0, 9, [0], [1])] + [OpenByEntry(0, 0, 1)])),
                    Ordered([Batch(0, 9, None)], [THE_ENTRY], [Dispute(Some(0), 0, 1, Open, 0)]))
  {
    var d := Dispute(Some(0), 0, 1, Open, 0);
    var drafted, end := Ordered([Batch(0, 9, None)], [THE_ENTRY], []), Ordered([Batch(0, 9, None)], [THE_ENTRY], [d]);
    assert [] + [d] == [d];
    Last(drafted, OpenByEntry(0, 0, 1), end);
    DraftComesNext([]);
    First(Ordered([], [], []), Build(0, 9, [0], [1]), drafted, [OpenByEntry(0, 0, 1)], end);
    OrderComesFirst([Build(0, 9, [0], [1])] + [OpenByEntry(0, 0, 1)], end);
  }

  /** Two administrators resolve the one dispute after both read it open: both refunds count, 200 out of 100. */
  lemma OneDisputeTwice()
    ensures var l := Ordered([Batch(0, 9, None)], [THE_ENTRY], [Dispute(Some(0), 0, 1, Open, 0)]);
            var c := LedgerRaces.ResolveTx(0, ResolvedRefund, 100);
            LedgerRaces.Next(LedgerRaces.Next(l, c), c).entries == [Entry(0, 1, [0], 100, 200)]
  {
    var l := Ordered([Batch(0, 9, None)], [THE_ENTRY], [Dispute(Some(0), 0, 1, Open, 0)]);
    var c := LedgerRaces.ResolveTx(0, ResolvedRefund, 100);
    var once := LedgerRaces.Next(l, c);
    assert once.entries == [THE_ENTRY.(refunded := 100)] && |once.disputes| == 1 && once.disputes[0].entry == Some(0);
    assert once.orders == [PLACED_ORDER.(status := Refunded)];
  }
}
