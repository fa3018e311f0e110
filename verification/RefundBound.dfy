/** Exactly when an entry is never refunded beyond its amount. */
module RefundBound {
  import opened Wrappers
  import opened OrderTypes
  import opened Grouping
  import opened PayrollLedger
  import opened Refunds

  ghost predicate EntryWithin(e: Entry) {
    0 <= e.refunded <= e.amount
  }

  ghost predicate Within(l: Ledger) {
    forall i: nat | i < |l.entries| :: EntryWithin(l.entries[i])
  }

  /** The entry, if any, has at least the refund left. */
  predicate HasLeft(entries: seq<Entry>, at: Option<nat>, refund: int) {
    at.Some? && at.value < |entries| ==> entries[at.value].refunded + refund <= entries[at.value].amount
  }

  /** What a caller can check before the step: the entry that it would pay from has the refund left. */
  predicate Fits(l: Ledger, s: Step) {
    match s
    case Resolve(dispute, status, refund) =>
      status == ResolvedRefund && dispute < |l.disputes| ==> HasLeft(l.entries, l.disputes[dispute].entry, refund)
    case Reverse(id) =>
      id < |l.orders| && Charged(l.orders[id]) ==> HasLeft(l.entries, FindEntry(l.entries, l.orders[id].user, id), l.orders[id].total)
    case _ => true
  }

  lemma BumpExactly(l: Ledger, l': Ledger, at: Option<nat>, refund: int)
    requires Within(l) && refund >= 0 && l'.entries == Bumped(l.entries, at, refund)
    ensures Within(l') <==> HasLeft(l.entries, at, refund)
  {
    if at.Some? && at.value < |l.entries| {
      assert EntryWithin(l.entries[at.value]);
      assert l'.entries[at.value].refunded == l.entries[at.value].refunded + refund;
      forall i: nat | i < |l'.entries| && i != at.value ensures EntryWithin(l'.entries[i]) { assert EntryWithin(l.entries[i]); }
    }
  }

  /** A drafted entry starts at zero, within its sum of non-negative totals. */
  lemma DraftWithin(orders: seq<Order>, batch: nat, listing: seq<nat>, user: nat)
    requires forall i: nat | i < |orders| :: orders[i].total >= 0
    ensures EntryWithin(DraftEntry(orders, batch, listing, user))
  {
    var ids := Group(listing, UserFn(orders), user);
    SumAtMost(ids, (id: nat) => 0, TotalFn(orders));
    SumZero(ids);
  }

  lemma BuildWithin(l: Ledger, start: int, end: int, listing: seq<nat>, users: seq<nat>)
    requires Sound(l) && Within(l) && BuildDraft(l, start, end, listing, users).Success?
    ensures Within(BuildDraft(l, start, end, listing, users).value)
  {
    var l' := BuildDraft(l, start, end, listing, users).value;
    forall i: nat | i < |l'.entries| ensures EntryWithin(l'.entries[i]) {
      if i < |l.entries| {
        assert EntryWithin(l.entries[i]);
      } else {
        DraftWithin(l.orders, |l.batches|, listing, users[i - |l.entries|]);
      }
    }
  }

  /** Every successful step keeps every entry within its amount exactly when it fits. */
  lemma WithinExactly(l: Ledger, s: Step)
    requires Sound(l) && Within(l) && Attempt(l, s).Success?
    ensures Within(Perform(l, s)) <==> Fits(l, s)
  {
    var l' := Perform(l, s);
    match s
    case Build(start, end, listing, users) => BuildWithin(l, start, end, listing, users);
    case Resolve(dispute, status, refund) =>
      if status == ResolvedRefund { BumpExactly(l, l', l.disputes[dispute].entry, refund); }
    case Reverse(id) =>
      if Charged(l.orders[id]) { BumpExactly(l, l', FindEntry(l.entries, l.orders[id].user, id), l.orders[id].total); }
    case _ =>
  }

  // ---------------------------------------------------------------- whole runs

  /** The bound holds in every state of the run. */
  ghost predicate AlwaysWithin(l: Ledger, steps: seq<Step>) {
    forall n | 0 <= n <= |steps| :: Within(RunAll(l, steps[..n]))
  }

  /** Every refund that goes through finds enough left. */
  ghost predicate AllFit(l: Ledger, steps: seq<Step>)
    decreases |steps|
  {
    steps != [] ==> (Attempt(l, steps[0]).Success? ==> Fits(l, steps[0])) && AllFit(Perform(l, steps[0]), steps[1..])
  }

  lemma PrefixStep(l: Ledger, steps: seq<Step>, n: nat)
    requires n < |steps|
    ensures RunAll(l, steps[..n + 1]) == RunAll(Perform(l, steps[0]), steps[1..][..n])
  {
    assert steps[..n + 1][1..] == steps[1..][..n];
  }

  lemma AlwaysUnfolds(l: Ledger, steps: seq<Step>)
    requires steps != []
    ensures AlwaysWithin(l, steps) <==> Within(l) && AlwaysWithin(Perform(l, steps[0]), steps[1..])
  {
    var next, rest := Perform(l, steps[0]), steps[1..];
    assert RunAll(l, steps[..0]) == l;
    if AlwaysWithin(l, steps) {
      forall n | 0 <= n <= |rest| ensures Within(RunAll(next, rest[..n])) {
        PrefixStep(l, steps, n);
        assert Within(RunAll(l, steps[..n + 1]));
      }
    }
    if Within(l) && AlwaysWithin(next, rest) {
      forall n | 0 <= n <= |steps| ensures Within(RunAll(l, steps[..n])) {
        if n > 0 {
          PrefixStep(l, steps, n - 1);
          assert Within(RunAll(next, rest[..n - 1]));
        }
      }
    }
  }

  lemma {:induction false} BoundedFromExactly(l: Ledger, steps: seq<Step>)
    requires Sound(l) && Within(l) && LegalRun(l, steps)
    ensures AlwaysWithin(l, steps) <==> AllFit(l, steps)
    decreases |steps|
  {
    if steps == [] {
      assert RunAll(l, []) == l;
    } else {
      var next := Perform(l, steps[0]);
      AlwaysUnfolds(l, steps);
      StepSound(l, steps[0]);
      if Attempt(l, steps[0]).Success? { WithinExactly(l, steps[0]); }
      if Within(next) {
        BoundedFromExactly(next, steps[1..]);
      } else {
        assert RunAll(next, steps[1..][..0]) == next;
      }
    }
  }

  /** Over every run from empty tables, no entry is ever refunded beyond its amount exactly when every refund fits. */
  lemma BoundedRunExactly(steps: seq<Step>)
    requires LegalRun(EMPTY_LEDGER, steps)
    ensures AlwaysWithin(EMPTY_LEDGER, steps) <==> AllFit(EMPTY_LEDGER, steps)
  {
    BoundedFromExactly(EMPTY_LEDGER, steps);
  }

  lemma {:induction false} GuardedPrefix(l: Ledger, steps: seq<Step>, n: nat)
    requires n <= |steps| && LegalRun(l, steps) && GuardedRun(l, steps)
    ensures LegalRun(l, steps[..n]) && GuardedRun(l, steps[..n])
    decreases n
  {
    if n > 0 {
      GuardedPrefix(Perform(l, steps[0]), steps[1..], n - 1);
      assert steps[..n][1..] == steps[1..][..n - 1];
    }
  }

  /** Refunding each order at most once is enough for every refund to fit; two partial refunds that fit show it is not needed. */
  lemma GuardedRunsFit(steps: seq<Step>)
    requires LegalRun(EMPTY_LEDGER, steps) && GuardedRun(EMPTY_LEDGER, steps)
    ensures AllFit(EMPTY_LEDGER, steps)
  {
    forall n | 0 <= n <= |steps| ensures Within(RunAll(EMPTY_LEDGER, steps[..n])) {
      GuardedPrefix(EMPTY_LEDGER, steps, n);
      GuardedRunsWithinAmount(steps[..n]);
    }
    BoundedRunExactly(steps);
  }
}
