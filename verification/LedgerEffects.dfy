/** What a payroll call does to sound tables, told without its search for the entry. */
module LedgerEffects {
  import opened Wrappers
  import opened OrderTypes
  import opened PayrollLedger
  import opened Refunds

  ghost predicate Listed(l: Ledger, order: nat) {
    exists i: nat :: i < |l.entries| && order in l.entries[i].orderIds
  }

  /** Exactly the entries that list the order, of which there is at most one, gain the refund. */
  ghost predicate PaidInto(before: seq<Entry>, after: seq<Entry>, order: nat, refund: int) {
    && |after| == |before|
    && forall i: nat | i < |before| ::
         after[i] == before[i].(refunded := before[i].refunded + if order in before[i].orderIds then refund else 0)
  }

  /** Reversal succeeds exactly for settled orders; the order ends refunded, and its total is paid into the entry that lists it, once. */
  lemma ReverseEffect(l: Ledger, id: nat)
    requires Sound(l)
    ensures ReverseOrder(l, id).Success? <==> id < |l.orders| && Settled(l.orders[id])
    ensures ReverseOrder(l, id).Success? ==>
              var l' := ReverseOrder(l, id).value;
              && l'.orders == l.orders[id := l.orders[id].(status := Refunded)]
              && PaidInto(l.entries, l'.entries, id, if Charged(l.orders[id]) then l.orders[id].total else 0)
              && l'.batches == l.batches && l'.disputes == l.disputes
  {
    if id < |l.orders| && Charged(l.orders[id]) {
      FindEntryFinds(l.entries, l.orders[id].user, id);
      forall i: nat | i < |l.entries| && id in l.entries[i].orderIds
        ensures FindEntry(l.entries, l.orders[id].user, id) == Some(i)
      {
        assert EntryOk(l, i);
      }
    }
  }

  /** A user can dispute exactly the own orders that are charged now or stand in an entry; the dispute names the entry that lists the order. */
  lemma ByOrderEffect(l: Ledger, order: nat, opener: nat)
    requires Sound(l)
    ensures OpenDisputeByOrder(l, order, opener).Success? <==>
            order < |l.orders| && l.orders[order].user == opener && (Charged(l.orders[order]) || Listed(l, order))
    ensures OpenDisputeByOrder(l, order, opener).Success? ==>
              var l' := OpenDisputeByOrder(l, order, opener).value;
              && |l'.disputes| == |l.disputes| + 1
              && l' == l.(disputes := l.disputes + [Dispute(l'.disputes[|l.disputes|].entry, order, opener, Open, 0)])
              && forall i: nat :: l'.disputes[|l.disputes|].entry == Some(i) <==> i < |l.entries| && order in l.entries[i].orderIds
  {
    FindEntryFinds(l.entries, opener, order);
    forall i: nat | i < |l.entries| && order in l.entries[i].orderIds
      ensures order < |l.orders| && l.orders[order].user == l.entries[i].user
      ensures l.orders[order].user == opener ==> FindEntry(l.entries, opener, order) == Some(i)
    {
      assert EntryOk(l, i);
    }
  }

  /** Disputing an order through an entry succeeds only for a settled order of the opener. */
  lemma ByEntryEffect(l: Ledger, entry: nat, order: nat, opener: nat)
    requires Sound(l) && OpenDispute(l, entry, order, opener).Success?
    ensures order < |l.orders| && l.orders[order].user == opener && Settled(l.orders[order])
    ensures OpenDispute(l, entry, order, opener) == OpenDisputeByOrder(l, order, opener)
  {
    assert EntryOk(l, entry);
    ByOrderEffect(l, order, opener);
  }

  /** A refund is paid into the dispute's entry and leaves the order refunded; a rejection moves neither. */
  ghost predicate Resolved(l: Ledger, l': Ledger, dispute: nat, status: DisputeStatus, refund: int) {
    && dispute < |l.disputes| && l.disputes[dispute].order < |l.orders|
    && var d := l.disputes[dispute];
       && d.status == Open && status != Open
       && (status == ResolvedRefund ==> 0 <= refund <= l.orders[d.order].total)
       && l'.disputes == l.disputes[dispute := d.(status := status, refund := refund)]
       && l'.orders == (if status == ResolvedRefund then l.orders[d.order := l.orders[d.order].(status := Refunded)] else l.orders)
       && PaidInto(l.entries, l'.entries, d.order, if status == ResolvedRefund && d.entry.Some? then refund else 0)
       && l'.batches == l.batches
  }

  /**
   * Resolution succeeds exactly for an open dispute and, for a refund, an amount within the order's total; then the
   * dispute is resolved as described.
   */
  lemma ResolveEffect(l: Ledger, dispute: nat, status: DisputeStatus, refund: int)
    requires Sound(l)
    ensures ResolveDispute(l, dispute, status, refund).Success? <==>
            && dispute < |l.disputes| && l.disputes[dispute].status == Open && status != Open
            && (status == ResolvedRefund ==> DisputeOk(l, l.disputes[dispute]) && 0 <= refund <= l.orders[l.disputes[dispute].order].total)
    ensures ResolveDispute(l, dispute, status, refund).Success? ==>
              Resolved(l, ResolveDispute(l, dispute, status, refund).value, dispute, status, refund)
  {
    if dispute < |l.disputes| {
      var d := l.disputes[dispute];
      assert DisputeOk(l, d);
      if d.entry.Some? {
        forall i: nat | i < |l.entries| && d.order in l.entries[i].orderIds ensures i == d.entry.value { }
      }
    }
  }

  /** The first check that a resolution of sound tables fails; what a dispute points at is always there. */
  lemma ResolveRefused(l: Ledger, dispute: nat, status: DisputeStatus, refund: int)
    requires Sound(l) && ResolveDispute(l, dispute, status, refund).Failure?
    ensures ResolveDispute(l, dispute, status, refund).error ==
            if status == Open then InvalidResolution else if dispute >= |l.disputes| then DisputeNotFound
            else if l.disputes[dispute].status != Open then InvalidTransition
            else if refund < 0 then NegativeRefund else RefundExceedsOrder
  {
    if dispute < |l.disputes| { assert DisputeOk(l, l.disputes[dispute]); }
  }

  /** Whoever locks a batch first stays its locker: over any run a locked batch never changes. */
  lemma {:induction false} LockedStays(l: Ledger, steps: seq<Step>, b: nat)
    requires b < |l.batches| && l.batches[b].lockedBy.Some?
    ensures b < |RunAll(l, steps).batches| && RunAll(l, steps).batches[b] == l.batches[b]
    decreases |steps|
  {
    if steps != [] { LockedStays(Perform(l, steps[0]), steps[1..], b); }
  }

  /** No two batches have the same period. */
  ghost predicate PeriodsDiffer(batches: seq<Batch>) {
    forall a, b | 0 <= a < b < |batches| :: batches[a].start != batches[b].start || batches[a].end != batches[b].end
  }

  /** A draft succeeds exactly for a period in order that no batch has; it adds its batch and leaves everything else. */
  lemma BuildEffect(l: Ledger, start: int, end: int, listing: seq<nat>, users: seq<nat>)
    ensures BuildDraft(l, start, end, listing, users).Success? <==>
            start <= end && forall b | 0 <= b < |l.batches| :: l.batches[b].start != start || l.batches[b].end != end
    ensures BuildDraft(l, start, end, listing, users).Success? ==>
              var l' := BuildDraft(l, start, end, listing, users).value;
              && l'.batches == l.batches + [Batch(start, end, None)] && l'.orders == l.orders
              && l'.disputes == l.disputes && l'.notes == l.notes && l.entries <= l'.entries
  {
  }

  /** Over every run, whatever periods are asked for and whatever is drafted, no two batches have the same period. */
  lemma {:induction false} PeriodsStayDifferent(l: Ledger, steps: seq<Step>)
    requires PeriodsDiffer(l.batches)
    ensures PeriodsDiffer(RunAll(l, steps).batches)
    decreases |steps|
  {
    if steps != [] {
      var s := steps[0];
      if s.Build? { BuildEffect(l, s.start, s.end, s.listing, s.users); }
      PeriodsStayDifferent(Perform(l, s), steps[1..]);
    }
  }

  /** A step that is no draft and no order change needs no assumption to keep the tables sound and the refunds recorded. */
  lemma CallKeeps(l: Ledger, s: Step)
    requires Sound(l) && RecordsMatch(l) && !s.Build? && !s.NewOrder? && !s.MoveOrder?
    ensures Sound(Perform(l, s)) && RecordsMatch(Perform(l, s))
  {
    StepSound(l, s);
    StepKeepsRecords(l, s);
  }
}
