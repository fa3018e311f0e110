/** What refunds do to the entries: over whole runs, and exactly when a dispute refund keeps the books equal. */
module Refunds {
  import opened Wrappers
  import opened OrderTypes
  import opened Grouping
  import opened PayrollLedger

  // ---------------------------------------------------------------- RefundedMinor is what was recorded

  lemma RecordedSnoc(l: Ledger, l': Ledger, n: Note, i: nat)
    requires l'.notes == l.notes + [n]
    requires forall m | m in l.notes :: EntryOfNote(l'.disputes, m) == EntryOfNote(l.disputes, m)
    ensures Recorded(l', i) == Recorded(l, i) + RecordFn(l'.disputes, i)(n)
  {
    SumSnoc(l.notes, n, RecordFn(l'.disputes, i));
    SumSame(l.notes, RecordFn(l.disputes, i), RecordFn(l'.disputes, i));
  }

  lemma RecordedSame(l: Ledger, l': Ledger, i: nat)
    requires l'.notes == l.notes
    requires forall m | m in l.notes :: EntryOfNote(l'.disputes, m) == EntryOfNote(l.disputes, m)
    ensures Recorded(l', i) == Recorded(l, i)
  {
    SumSame(l.notes, RecordFn(l.disputes, i), RecordFn(l'.disputes, i));
  }

  /** Nothing is recorded against an entry that does not exist yet. */
  lemma RecordedNothing(l: Ledger, i: nat)
    requires Sound(l) && i >= |l.entries|
    ensures Recorded(l, i) == 0
  {
    forall n | n in l.notes ensures RecordFn(l.disputes, i)(n) == 0 { assert NoteOk(l, n); }
    SumSame(l.notes, RecordFn(l.disputes, i), (n: Note) => 0);
    SumZero(l.notes);
  }

  lemma {:induction false} SumZero<T>(xs: seq<T>)
    ensures SumBy(xs, (x: T) => 0) == 0
  {
    if xs != [] { SumZero(xs[..|xs| - 1]); }
  }

  /** Disputes keep their entry, so every note keeps pointing at its entry. */
  lemma NotesKeepEntry(l: Ledger, l': Ledger)
    requires Sound(l) && |l.disputes| <= |l'.disputes|
    requires forall d: nat | d < |l.disputes| :: l'.disputes[d].entry == l.disputes[d].entry
    ensures forall m | m in l.notes :: EntryOfNote(l'.disputes, m) == EntryOfNote(l.disputes, m)
  {
    forall m | m in l.notes ensures EntryOfNote(l'.disputes, m) == EntryOfNote(l.disputes, m) { assert NoteOk(l, m); }
  }

  lemma NoteKeepsRecords(l: Ledger, l': Ledger, n: Note)
    requires Sound(l) && RecordsMatch(l)
    requires |l.disputes| == |l'.disputes| && forall d: nat | d < |l.disputes| :: l'.disputes[d].entry == l.disputes[d].entry
    requires l'.notes == l.notes + [n]
    requires l'.entries == if IsRefund(n) then Bumped(l.entries, EntryOfNote(l'.disputes, n), n.refund) else l.entries
    ensures RecordsMatch(l')
  {
    NotesKeepEntry(l, l');
    forall i: nat | i < |l'.entries| ensures l'.entries[i].refunded == Recorded(l', i) {
      RecordedSnoc(l, l', n, i);
    }
  }

  lemma QuietKeepsRecords(l: Ledger, l': Ledger)
    requires Sound(l) && RecordsMatch(l)
    requires |l.disputes| <= |l'.disputes| && forall d: nat | d < |l.disputes| :: l'.disputes[d].entry == l.disputes[d].entry
    requires l'.notes == l.notes && |l.entries| <= |l'.entries|
    requires forall i: nat | i < |l'.entries| :: l'.entries[i].refunded == if i < |l.entries| then l.entries[i].refunded else 0
    ensures RecordsMatch(l')
  {
    NotesKeepEntry(l, l');
    forall i: nat | i < |l'.entries| ensures l'.entries[i].refunded == Recorded(l', i) {
      RecordedSame(l, l', i);
      if i >= |l.entries| { RecordedNothing(l, i); }
    }
  }

  /** In every run RefundedMinor stays the sum of the refunds recorded against the entry, disputes included. */
  lemma StepKeepsRecords(l: Ledger, s: Step)
    requires Sound(l) && RecordsMatch(l) && Legal(l, s)
    ensures RecordsMatch(Perform(l, s))
  {
    if Attempt(l, s).Success? {
      var l' := Perform(l, s);
      match s
      case LockBatch(batch, admin) => NoteKeepsRecords(l, l', BatchLocked(batch));
      case Resolve(dispute, status, refund) =>
        NoteKeepsRecords(l, l', DisputeResolved(dispute, l.disputes[dispute].order, status, refund));
      case Reverse(id) =>
        if l.orders[id].status != Refunded {
          NoteKeepsRecords(l, l', OrderReversed(id, FindEntry(l.entries, l.orders[id].user, id), l.orders[id].total));
        }
      case _ => QuietKeepsRecords(l, l');
    }
  }

  /** Refunds recorded for one order against one entry. */
  function OrderRecordFn(disputes: seq<Dispute>, i: nat, id: nat): Note -> int {
    (n: Note) => if EntryOfNote(disputes, n) == Some(i) && IsRefund(n) && n.order == id then n.refund else 0
  }

  function PerOrder(disputes: seq<Dispute>, notes: seq<Note>, i: nat): nat -> int {
    (id: nat) => SumBy(notes, OrderRecordFn(disputes, i, id))
  }

  /** How often an order was refunded, against whatever entry. */
  function RefundCount(notes: seq<Note>, id: nat): nat {
    if notes == [] then 0
    else
      var n := notes[|notes| - 1];
      RefundCount(notes[..|notes| - 1], id) + if IsRefund(n) && n.order == id then 1 else 0
  }

  /** The refunds against an entry, sorted by the orders they refund. */
  lemma {:induction false} RecordedByOrder(l: Ledger, notes: seq<Note>, i: nat)
    requires i < |l.entries| && Distinct(l.entries[i].orderIds)
    requires forall n | n in notes :: NoteOk(l, n)
    ensures SumBy(notes, RecordFn(l.disputes, i)) == SumBy(l.entries[i].orderIds, PerOrder(l.disputes, notes, i))
  {
    var ids := l.entries[i].orderIds;
    if notes == [] {
      SumSame(ids, PerOrder(l.disputes, notes, i), (id: nat) => 0);
      SumZero(ids);
    } else {
      var init, n := notes[..|notes| - 1], notes[|notes| - 1];
      assert notes == init + [n];
      RecordedByOrder(l, init, i);
      forall id: nat ensures PerOrder(l.disputes, notes, i)(id) == PerOrder(l.disputes, init, i)(id) + OrderRecordFn(l.disputes, i, id)(n) {
        SumSnoc(init, n, OrderRecordFn(l.disputes, i, id));
      }
      SumSnoc(init, n, RecordFn(l.disputes, i));
      assert NoteOk(l, n);
      var at: nat := if IsRefund(n) then n.order else 0;
      SumBump(ids, PerOrder(l.disputes, init, i), PerOrder(l.disputes, notes, i), at, RecordFn(l.disputes, i)(n));
    }
  }

  lemma {:induction false} OneRefundWithinTotal(l: Ledger, notes: seq<Note>, i: nat, id: nat)
    requires forall n | n in notes :: NoteOk(l, n)
    requires id < |l.orders| && l.orders[id].total >= 0 && RefundCount(notes, id) <= 1
    ensures 0 <= PerOrder(l.disputes, notes, i)(id) <= l.orders[id].total
    ensures RefundCount(notes, id) == 0 ==> PerOrder(l.disputes, notes, i)(id) == 0
  {
    if notes != [] {
      var init, n := notes[..|notes| - 1], notes[|notes| - 1];
      assert notes == init + [n];
      SumSnoc(init, n, OrderRecordFn(l.disputes, i, id));
      assert NoteOk(l, n);
      OneRefundWithinTotal(l, init, i, id);
    }
  }

  /** With at most one refund per order of the entry, RefundedMinor never exceeds AmountMinor. */
  lemma RefundsWithinAmount(l: Ledger, i: nat)
    requires Sound(l) && RecordsMatch(l) && i < |l.entries|
    requires forall id | id in l.entries[i].orderIds :: RefundCount(l.notes, id) <= 1
    ensures 0 <= l.entries[i].refunded <= l.entries[i].amount
  {
    var ids := l.entries[i].orderIds;
    assert EntryOk(l, i);
    RecordedByOrder(l, l.notes, i);
    forall id | id in ids ensures 0 <= PerOrder(l.disputes, l.notes, i)(id) <= TotalFn(l.orders)(id) {
      OneRefundWithinTotal(l, l.notes, i, id);
    }
    SumAtMost(ids, PerOrder(l.disputes, l.notes, i), TotalFn(l.orders));
    SumAtMost(ids, (id: nat) => 0, PerOrder(l.disputes, l.notes, i));
    SumZero(ids);
  }

  // ---------------------------------------------------------------- when an order is refunded at most once

  /** An order carries one refund exactly when its status says refunded. */
  ghost predicate RefundedOnce(l: Ledger) {
    forall id: nat :: RefundCount(l.notes, id) == if id < |l.orders| && l.orders[id].status == Refunded then 1 else 0
  }

  /** A refund resolution meets an order that is still charged. */
  ghost predicate Guarded(l: Ledger, s: Step) {
    s.Resolve? && s.status == ResolvedRefund && s.dispute < |l.disputes| ==>
      var id := l.disputes[s.dispute].order;
      id < |l.orders| && Charged(l.orders[id])
  }

  lemma RefundCountSnoc(notes: seq<Note>, n: Note, id: nat)
    ensures RefundCount(notes + [n], id) == RefundCount(notes, id) + if IsRefund(n) && n.order == id then 1 else 0
  {
    assert (notes + [n])[..|notes|] == notes;
  }

  /** One more note keeps the count right exactly when it is a refund of an order that becomes refunded with it, or no refund. */
  lemma NoteExactly(l: Ledger, l': Ledger, n: Note)
    requires RefundedOnce(l) && l'.notes == l.notes + [n] && |l'.orders| == |l.orders|
    requires forall id: nat | id < |l.orders| && (!IsRefund(n) || id != n.order) :: l'.orders[id].status == l.orders[id].status
    requires IsRefund(n) ==> n.order < |l.orders| && l'.orders[n.order].status == Refunded
    ensures RefundedOnce(l') <==> (IsRefund(n) ==> l.orders[n.order].status != Refunded)
  {
    forall id: nat ensures RefundCount(l'.notes, id) == RefundCount(l.notes, id) + if IsRefund(n) && n.order == id then 1 else 0 {
      RefundCountSnoc(l.notes, n, id);
    }
    if IsRefund(n) && l.orders[n.order].status == Refunded {
      assert RefundCount(l'.notes, n.order) == 2;
    }
  }

  /** Any step but a refund resolution refunds an order at most once; a refund resolution does so exactly when it is guarded. */
  lemma GuardExactly(l: Ledger, s: Step)
    requires Sound(l) && RefundedOnce(l) && Legal(l, s) && Attempt(l, s).Success?
    ensures RefundedOnce(Perform(l, s)) <==> Guarded(l, s)
  {
    var l' := Perform(l, s);
    if l'.notes != l.notes {
      var n := l'.notes[|l.notes|];
      assert l'.notes == l.notes + [n];
      if s.Resolve? { assert DisputeOk(l, l.disputes[s.dispute]); }
      NoteExactly(l, l', n);
    }
  }

  ghost predicate LegalRun(l: Ledger, steps: seq<Step>)
    decreases |steps|
  {
    steps != [] ==> Legal(l, steps[0]) && LegalRun(Perform(l, steps[0]), steps[1..])
  }

  ghost predicate GuardedRun(l: Ledger, steps: seq<Step>)
    decreases |steps|
  {
    steps != [] ==> Guarded(l, steps[0]) && GuardedRun(Perform(l, steps[0]), steps[1..])
  }

  /** Over any run with disjoint periods: sound tables, and RefundedMinor is what was recorded. */
  lemma {:induction false} RunKeepsRecords(l: Ledger, steps: seq<Step>)
    requires Sound(l) && RecordsMatch(l) && LegalRun(l, steps)
    ensures Sound(RunAll(l, steps)) && RecordsMatch(RunAll(l, steps))
    decreases |steps|
  {
    if steps != [] {
      StepSound(l, steps[0]);
      StepKeepsRecords(l, steps[0]);
      RunKeepsRecords(Perform(l, steps[0]), steps[1..]);
    }
  }

  lemma {:induction false} GuardedRunRefundsOnce(l: Ledger, steps: seq<Step>)
    requires Sound(l) && RefundedOnce(l) && LegalRun(l, steps) && GuardedRun(l, steps)
    ensures RefundedOnce(RunAll(l, steps))
    decreases |steps|
  {
    if steps != [] {
      StepSound(l, steps[0]);
      if Attempt(l, steps[0]).Success? { GuardExactly(l, steps[0]); }
      GuardedRunRefundsOnce(Perform(l, steps[0]), steps[1..]);
    }
  }

  /** In every run in which refund resolutions meet charged orders, no entry is refunded beyond its amount. */
  lemma GuardedRunsWithinAmount(steps: seq<Step>)
    requires LegalRun(EMPTY_LEDGER, steps) && GuardedRun(EMPTY_LEDGER, steps)
    ensures var l := RunAll(EMPTY_LEDGER, steps);
            forall i: nat | i < |l.entries| :: 0 <= l.entries[i].refunded <= l.entries[i].amount
  {
    GuardedRunRefundsOnce(EMPTY_LEDGER, steps);
    RunsWithinAmount(steps);
  }

  /** In every run in which no order was refunded twice, by whichever path, the same bound holds. */
  lemma RunsWithinAmount(steps: seq<Step>)
    requires LegalRun(EMPTY_LEDGER, steps)
    requires forall id: nat :: RefundCount(RunAll(EMPTY_LEDGER, steps).notes, id) <= 1
    ensures var l := RunAll(EMPTY_LEDGER, steps);
            forall i: nat | i < |l.entries| :: 0 <= l.entries[i].refunded <= l.entries[i].amount
  {
    RunKeepsRecords(EMPTY_LEDGER, steps);
    var l := RunAll(EMPTY_LEDGER, steps);
    forall i: nat | i < |l.entries| ensures 0 <= l.entries[i].refunded <= l.entries[i].amount {
      RefundsWithinAmount(l, i);
    }
  }

  // ---------------------------------------------------------------- RefundedMinor against the refunded orders

  /** Refunding an order adds its total to the refunded orders of the entry that lists it, and to no other. */
  lemma BookAfterRefund(l: Ledger, id: nat, i: nat)
    requires Sound(l) && id < |l.orders| && Charged(l.orders[id]) && i < |l.entries|
    ensures SumBy(l.entries[i].orderIds, RefundedFn(Refund(l, id).orders))
            == SumBy(l.entries[i].orderIds, RefundedFn(l.orders)) + if id in l.entries[i].orderIds then l.orders[id].total else 0
  {
    assert EntryOk(l, i);
    SumBump(l.entries[i].orderIds, RefundedFn(l.orders), RefundedFn(Refund(l, id).orders), id, l.orders[id].total);
  }

  lemma ReverseKeepsBook(l: Ledger, id: nat)
    requires Sound(l) && BookMatches(l) && ReverseOrder(l, id).Success?
    ensures BookMatches(ReverseOrder(l, id).value)
  {
    if l.orders[id].status != Refunded {
      var l' := ReverseOrder(l, id).value;
      var at := FindEntry(l.entries, l.orders[id].user, id);
      FindEntryFinds(l.entries, l.orders[id].user, id);
      forall i: nat | i < |l'.entries| ensures l'.entries[i].refunded == SumBy(l'.entries[i].orderIds, RefundedFn(l'.orders)) {
        BookAfterRefund(l, id, i);
        assert EntryOk(l, i);
        if id in l.entries[i].orderIds { assert at == Some(i); }
      }
    }
  }

  /**
   * A refund resolution keeps RefundedMinor equal to the refunded orders exactly when it pays the full total of a charged
   * order through that order's entry, pays nothing for an order already refunded, or concerns an order in no entry.
   * (A dispute opened before its order's entry existed pays nothing into it: the entry then misses the total.)
   */
  lemma ResolveBookExactly(l: Ledger, dispute: nat, refund: int)
    requires Sound(l) && BookMatches(l) && ResolveDispute(l, dispute, ResolvedRefund, refund).Success?
    ensures BookMatches(ResolveDispute(l, dispute, ResolvedRefund, refund).value) <==>
            var d := l.disputes[dispute];
            var due := if Charged(l.orders[d.order]) then l.orders[d.order].total else 0;
            if d.entry.Some? then refund == due
            else due == 0 || forall i: nat | i < |l.entries| :: d.order !in l.entries[i].orderIds
  {
    var d := l.disputes[dispute];
    var l' := ResolveDispute(l, dispute, ResolvedRefund, refund).value;
    assert DisputeOk(l, d);
    var charged := Charged(l.orders[d.order]);
    var due := if charged then l.orders[d.order].total else 0;
    forall i: nat | i < |l.entries|
      ensures SumBy(l'.entries[i].orderIds, RefundedFn(l'.orders)) == l.entries[i].refunded + if d.order in l.entries[i].orderIds then due else 0
    {
      if charged { BookAfterRefund(l, d.order, i); }
    }
    if d.entry.Some? && BookMatches(l') {
      var i := d.entry.value;
      assert l'.entries[i].refunded == l.entries[i].refunded + refund;
    }
    if d.entry.None? && BookMatches(l') && due != 0 {
      forall i: nat | i < |l.entries| ensures d.order !in l.entries[i].orderIds {
        assert l'.entries[i].refunded == l.entries[i].refunded;
      }
    }
  }

  /** The entries stay and so do their orders. */
  lemma QuietKeepsBook(l: Ledger, l': Ledger)
    requires Sound(l) && BookMatches(l) && l'.entries == l.entries
    requires forall id: nat | id < |l.orders| && Settled(l.orders[id]) :: id < |l'.orders| && l'.orders[id] == l.orders[id]
    ensures BookMatches(l')
  {
    forall i: nat | i < |l'.entries| ensures l'.entries[i].refunded == SumBy(l'.entries[i].orderIds, RefundedFn(l'.orders)) {
      assert EntryOk(l, i);
      forall id | id in l.entries[i].orderIds ensures RefundedFn(l.orders)(id) == RefundedFn(l'.orders)(id) {
        assert Settled(l.orders[id]);
      }
      SumSame(l.entries[i].orderIds, RefundedFn(l.orders), RefundedFn(l'.orders));
    }
  }

  /** A drafted entry starts with charged orders only. */
  lemma DraftKeepsBook(l: Ledger, start: int, end: int, listing: seq<nat>, users: seq<nat>)
    requires BookMatches(l) && ListsCharged(l.orders, start, end, listing)
    requires BuildDraft(l, start, end, listing, users).Success?
    ensures BookMatches(BuildDraft(l, start, end, listing, users).value)
  {
    var l' := BuildDraft(l, start, end, listing, users).value;
    forall i: nat | |l.entries| <= i < |l'.entries| ensures SumBy(l'.entries[i].orderIds, RefundedFn(l'.orders)) == 0 {
      var ids := l'.entries[i].orderIds;
      forall id | id in ids ensures RefundedFn(l'.orders)(id) == 0 {
        InGroup(listing, UserFn(l.orders), users[i - |l.entries|], id);
      }
      SumSame(ids, RefundedFn(l'.orders), (id: nat) => 0);
      SumZero(ids);
    }
  }

  /** Every step but a refund resolution keeps RefundedMinor equal to the totals of the refunded orders. */
  lemma StepKeepsBook(l: Ledger, s: Step)
    requires Sound(l) && BookMatches(l) && Legal(l, s)
    requires !(s.Resolve? && s.status == ResolvedRefund)
    ensures BookMatches(Perform(l, s))
  {
    if Attempt(l, s).Success? {
      match s
      case Reverse(order) => ReverseKeepsBook(l, order);
      case Build(start, end, listing, users) => DraftKeepsBook(l, start, end, listing, users);
      case _ => QuietKeepsBook(l, Perform(l, s));
    }
  }

  /** Reversals alone: in every run RefundedMinor = totals of the refunded orders <= AmountMinor. */
  lemma {:induction false} ReversalsKeepBook(l: Ledger, steps: seq<Step>)
    requires Sound(l) && BookMatches(l) && LegalRun(l, steps)
    requires forall k | 0 <= k < |steps| :: !(steps[k].Resolve? && steps[k].status == ResolvedRefund)
    ensures var l' := RunAll(l, steps);
            && Sound(l') && BookMatches(l')
            && forall i: nat | i < |l'.entries| :: 0 <= l'.entries[i].refunded <= l'.entries[i].amount
    decreases |steps|
  {
    if steps != [] {
      StepSound(l, steps[0]);
      StepKeepsBook(l, steps[0]);
      ReversalsKeepBook(Perform(l, steps[0]), steps[1..]);
    } else {
      forall i: nat | i < |l.entries| ensures 0 <= l.entries[i].refunded <= l.entries[i].amount {
        assert EntryOk(l, i);
        SumAtMost(l.entries[i].orderIds, RefundedFn(l.orders), TotalFn(l.orders));
        SumAtMost(l.entries[i].orderIds, (id: nat) => 0, RefundedFn(l.orders));
        SumZero(l.entries[i].orderIds);
      }
    }
  }

  /** Replaying a reversal changes nothing, and two reversals commute on entries and orders. */
  lemma ReverseIdempotent(l: Ledger, id: nat)
    requires ReverseOrder(l, id).Success?
    ensures ReverseOrder(ReverseOrder(l, id).value, id) == ReverseOrder(l, id)
  {
  }

  lemma BumpedFind(entries: seq<Entry>, at: Option<nat>, refund: int, user: nat, order: nat)
    ensures FindEntry(Bumped(entries, at, refund), user, order) == FindEntry(entries, user, order)
    decreases |entries|
  {
    if entries != [] && at.Some? && at.value < |entries| {
      var n := |entries| - 1;
      if at.value == n {
        assert Bumped(entries, at, refund)[..n] == entries[..n];
      } else {
        assert Bumped(entries, at, refund)[..n] == Bumped(entries[..n], at, refund);
        BumpedFind(entries[..n], at, refund, user, order);
      }
    }
  }

  lemma ReversalsCommute(l: Ledger, a: nat, b: nat)
    requires ReverseOrder(l, a).Success? && ReverseOrder(l, b).Success?
    ensures var ab := ReverseOrder(ReverseOrder(l, a).value, b);
            var ba := ReverseOrder(ReverseOrder(l, b).value, a);
            ab.Success? && ba.Success? && ab.value.orders == ba.value.orders && ab.value.entries == ba.value.entries
  {
    if a != b && Charged(l.orders[a]) && Charged(l.orders[b]) {
      var ea := FindEntry(l.entries, l.orders[a].user, a);
      var eb := FindEntry(l.entries, l.orders[b].user, b);
      BumpedFind(l.entries, ea, l.orders[a].total, l.orders[b].user, b);
      BumpedFind(l.entries, eb, l.orders[b].total, l.orders[a].user, a);
    }
  }
}
