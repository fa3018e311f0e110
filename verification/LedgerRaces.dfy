/**
 * Drafts, reversals and resolutions read before their transactions. Here is exactly which of their commits, on reads
 * however old, keep the refunds of an entry equal to its refunded orders and within its amount.
 */
module LedgerRaces {
  import opened Wrappers
  import opened OrderTypes
  import opened Grouping
  import opened PayrollLedger
  import opened Refunds
  import opened RefundBound
  import opened LedgerEffects

  /** listing: the orders that were charged when they were listed; read, at: the status and entry that were found. */
  datatype Commit =
    | DraftTx(start: int, end: int, listing: seq<nat>, users: seq<nat>)
    | ReverseTx(id: nat, read: Status, at: Option<nat>)
    | ResolveTx(dispute: nat, status: DisputeStatus, refund: int)

  /** The dispute's row is overwritten whatever its status has become. */
  function Reopened(l: Ledger, dispute: nat): Ledger {
    if dispute < |l.disputes| then l.(disputes := l.disputes[dispute := l.disputes[dispute].(status := Open)]) else l
  }

  function Apply(l: Ledger, c: Commit): Option<Ledger> {
    match c
    case DraftTx(start, end, listing, users) => OfResult(BuildDraft(l, start, end, listing, users))
    case ReverseTx(id, read, at) =>
      if read !in {PickedUp, NoShow} || id >= |l.orders| || l.orders[id].status != read then None
      else
        var total := l.orders[id].total;
        Some(Refund(l, id).(entries := Bumped(l.entries, at, total), notes := l.notes + [OrderReversed(id, at, total)]))
    case ResolveTx(dispute, status, refund) => OfResult(ResolveDispute(Reopened(l, dispute), dispute, status, refund))
  }

  function OfResult(r: Result<Ledger, PayrollError>): Option<Ledger> {
    match r case Success(l) => Some(l) case Failure(_) => None
  }

  function Next(l: Ledger, c: Commit): Ledger {
    match Apply(l, c) case Some(l') => l' case None => l
  }

  /** What an earlier read guarantees: listed orders stay settled and an entry that lists an order goes on listing it. */
  ghost predicate FromHistory(l: Ledger, c: Commit) {
    match c
    case DraftTx(start, end, listing, users) =>
      && ListsSettled(l.orders, start, end, listing) && ListsUsers(l.orders, listing, users)
      && (PeriodTaken(l, start, end) || DisjointPeriod(l, start, end))
    case ReverseTx(id, _, at) => at.Some? ==> at.value < |l.entries| && id in l.entries[at.value].orderIds
    case ResolveTx(_, _, _) => true
  }

  lemma ReopenedKeeps(l: Ledger, dispute: nat)
    requires Sound(l)
    ensures Sound(Reopened(l, dispute))
    ensures RecordsMatch(l) ==> RecordsMatch(Reopened(l, dispute))
  {
    InPlaceSound(l, Reopened(l, dispute));
    if RecordsMatch(l) { QuietKeepsRecords(l, Reopened(l, dispute)); }
  }

  lemma ReverseTxKeeps(l: Ledger, c: Commit)
    requires Sound(l) && c.ReverseTx? && FromHistory(l, c) && Apply(l, c).Some?
    ensures Sound(Apply(l, c).value)
    ensures RecordsMatch(l) ==> RecordsMatch(Apply(l, c).value)
  {
    var l' := Apply(l, c).value;
    InPlaceSound(l, l');
    if RecordsMatch(l) { NoteKeepsRecords(l, l', OrderReversed(c.id, c.at, l.orders[c.id].total)); }
  }

  /** Commits on old reads still keep sound tables and RefundedMinor = the refunds recorded. */
  lemma CommitKeeps(l: Ledger, c: Commit)
    requires Sound(l) && FromHistory(l, c)
    ensures Sound(Next(l, c))
    ensures RecordsMatch(l) ==> RecordsMatch(Next(l, c))
  {
    if Apply(l, c).Some? {
      match c
      case DraftTx(start, end, listing, users) =>
        DraftSound(l, start, end, listing, users);
        if RecordsMatch(l) { QuietKeepsRecords(l, Next(l, c)); }
      case ReverseTx(_, _, _) => ReverseTxKeeps(l, c);
      case ResolveTx(dispute, status, refund) =>
        var open_ := Reopened(l, dispute);
        ReopenedKeeps(l, dispute);
        StepSound(open_, Resolve(dispute, status, refund));
        if RecordsMatch(l) { StepKeepsRecords(open_, Resolve(dispute, status, refund)); }
    }
  }

  /** A call that runs alone is the commit of what it has just read. */
  lemma CallsAreCommits(l: Ledger, s: Step)
    ensures s.Build? ==> Next(l, DraftTx(s.start, s.end, s.listing, s.users)) == Perform(l, s)
    ensures s.Reverse? && s.order < |l.orders| && Charged(l.orders[s.order]) ==>
              Next(l, ReverseTx(s.order, l.orders[s.order].status, FindEntry(l.entries, l.orders[s.order].user, s.order))) == Perform(l, s)
    ensures s.Resolve? && s.dispute < |l.disputes| && l.disputes[s.dispute].status == Open ==>
              Next(l, ResolveTx(s.dispute, s.status, s.refund)) == Perform(l, s)
  {
    if s.Resolve? && s.dispute < |l.disputes| && l.disputes[s.dispute].status == Open {
      assert Reopened(l, s.dispute).disputes == l.disputes;
    }
  }

  // ---------------------------------------------------------------- within the amount

  predicate CommitFits(l: Ledger, c: Commit) {
    match c
    case DraftTx(_, _, _, _) => true
    case ReverseTx(id, _, at) => id < |l.orders| ==> HasLeft(l.entries, at, l.orders[id].total)
    case ResolveTx(dispute, status, refund) =>
      status == ResolvedRefund && dispute < |l.disputes| ==> HasLeft(l.entries, l.disputes[dispute].entry, refund)
  }

  /** A commit on reads however old keeps every entry within its amount exactly when the entry it pays from has the refund left. */
  lemma CommitWithinExactly(l: Ledger, c: Commit)
    requires Sound(l) && Within(l) && Apply(l, c).Some?
    ensures Within(Apply(l, c).value) <==> CommitFits(l, c)
  {
    match c
    case DraftTx(start, end, listing, users) => BuildWithin(l, start, end, listing, users);
    case ReverseTx(id, _, at) => BumpExactly(l, Apply(l, c).value, at, l.orders[id].total);
    case ResolveTx(dispute, status, refund) =>
      ReopenedKeeps(l, dispute);
      WithinExactly(Reopened(l, dispute), Resolve(dispute, status, refund));
  }

  // ---------------------------------------------------------------- equal to the refunded orders

  /** A draft must list no order refunded meanwhile, a reversal must have found the entry that now lists its order, and a resolution must pay what is due. */
  ghost predicate CommitBooks(l: Ledger, c: Commit) {
    match c
    case DraftTx(_, _, listing, _) => forall id | id in listing :: RefundedFn(l.orders)(id) == 0
    case ReverseTx(id, _, at) => at.Some? || !Listed(l, id) || (id < |l.orders| && l.orders[id].total == 0)
    case ResolveTx(dispute, status, refund) =>
      status == ResolvedRefund && dispute < |l.disputes| && l.disputes[dispute].order < |l.orders| ==>
        var d := l.disputes[dispute];
        var due := if Charged(l.orders[d.order]) then l.orders[d.order].total else 0;
        if d.entry.Some? then refund == due else due == 0 || !Listed(l, d.order)
  }

  lemma {:induction false} ZeroParts(ids: seq<nat>, f: nat -> int)
    requires forall i | 0 <= i < |ids| :: f(ids[i]) >= 0
    ensures SumBy(ids, f) >= 0
    ensures SumBy(ids, f) == 0 <==> forall i | 0 <= i < |ids| :: f(ids[i]) == 0
  {
    if ids != [] {
      var init := ids[..|ids| - 1];
      ZeroParts(init, f);
      if forall i | 0 <= i < |init| :: f(init[i]) == 0 {
        if f(ids[|ids| - 1]) == 0 {
          forall i | 0 <= i < |ids| ensures f(ids[i]) == 0 {
            if i < |init| { assert f(init[i]) == 0; }
          }
        }
      } else {
        var i :| 0 <= i < |init| && f(init[i]) != 0;
        assert f(ids[i]) != 0;
      }
    }
  }

  /** The entry drafted for a user is in balance exactly when none of the user's listed orders is refunded. */
  lemma DraftedEntryBooks(l: Ledger, listing: seq<nat>, batch: nat, user: nat)
    requires forall i: nat | i < |l.orders| :: l.orders[i].total >= 0
    ensures var ids := DraftEntry(l.orders, batch, listing, user).orderIds;
            SumBy(ids, RefundedFn(l.orders)) == 0 <==> forall id | id in listing && UserFn(l.orders)(id) == user :: RefundedFn(l.orders)(id) == 0
  {
    var ids := Group(listing, UserFn(l.orders), user);
    ZeroParts(ids, RefundedFn(l.orders));
    forall id ensures id in ids <==> id in listing && UserFn(l.orders)(id) == user { InGroup(listing, UserFn(l.orders), user, id); }
    assert (forall i | 0 <= i < |ids| :: RefundedFn(l.orders)(ids[i]) == 0) <==> forall id | id in ids :: RefundedFn(l.orders)(id) == 0;
  }

  lemma DraftBooksExactly(l: Ledger, c: Commit)
    requires Sound(l) && BookMatches(l) && FromHistory(l, c) && c.DraftTx? && Apply(l, c).Some?
    ensures BookMatches(Apply(l, c).value) <==> CommitBooks(l, c)
  {
    var l', n := Apply(l, c).value, |l.entries|;
    forall i: nat | n <= i < |l'.entries|
      ensures l'.entries[i].refunded == SumBy(l'.entries[i].orderIds, RefundedFn(l'.orders)) <==>
              forall id | id in c.listing && UserFn(l.orders)(id) == c.users[i - n] :: RefundedFn(l.orders)(id) == 0
    {
      DraftedEntryBooks(l, c.listing, |l.batches|, c.users[i - n]);
    }
    if BookMatches(l') {
      forall id | id in c.listing ensures RefundedFn(l.orders)(id) == 0 {
        var k :| 0 <= k < |c.listing| && c.listing[k] == id;
        assert UserFn(l.orders)(c.listing[k]) in c.users;
        var j :| 0 <= j < |c.users| && c.users[j] == UserFn(l.orders)(id);
        assert l'.entries[n + j].refunded == SumBy(l'.entries[n + j].orderIds, RefundedFn(l'.orders));
      }
    }
  }

  lemma ReverseBooksExactly(l: Ledger, c: Commit)
    requires Sound(l) && BookMatches(l) && FromHistory(l, c) && c.ReverseTx? && Apply(l, c).Some?
    ensures BookMatches(Apply(l, c).value) <==> CommitBooks(l, c)
  {
    var l', id := Apply(l, c).value, c.id;
    forall i: nat | i < |l.entries|
      ensures SumBy(l'.entries[i].orderIds, RefundedFn(l'.orders)) == l.entries[i].refunded + if id in l.entries[i].orderIds then l.orders[id].total else 0
    {
      BookAfterRefund(l, id, i);
    }
    if c.at.None? && Listed(l, id) {
      var i: nat :| i < |l.entries| && id in l.entries[i].orderIds;
      assert l'.entries[i].refunded == l.entries[i].refunded;
    }
  }

  lemma ReopenedBooks(l: Ledger, dispute: nat)
    ensures BookMatches(Reopened(l, dispute)) <==> BookMatches(l)
  {
  }

  lemma RejectBooks(l: Ledger, dispute: nat, refund: int)
    requires Sound(l) && BookMatches(l) && ResolveDispute(l, dispute, ResolvedReject, refund).Success?
    ensures BookMatches(ResolveDispute(l, dispute, ResolvedReject, refund).value)
  {
    QuietKeepsBook(l, ResolveDispute(l, dispute, ResolvedReject, refund).value);
  }

  /** A commit on reads however old keeps RefundedMinor = the totals of the refunded orders exactly under CommitBooks. */
  lemma CommitBooksExactly(l: Ledger, c: Commit)
    requires Sound(l) && BookMatches(l) && FromHistory(l, c) && Apply(l, c).Some?
    ensures BookMatches(Apply(l, c).value) <==> CommitBooks(l, c)
  {
    match c
    case DraftTx(_, _, _, _) => DraftBooksExactly(l, c);
    case ReverseTx(_, _, _) => ReverseBooksExactly(l, c);
    case ResolveTx(dispute, status, refund) =>
      ReopenedKeeps(l, dispute);
      ReopenedBooks(l, dispute);
      if status == ResolvedRefund {
        assert DisputeOk(l, l.disputes[dispute]);
        ResolveBookExactly(Reopened(l, dispute), dispute, refund);
      } else {
        RejectBooks(Reopened(l, dispute), dispute, refund);
      }
  }

  // ---------------------------------------------------------------- interleaved runs

  ghost predicate AllFromHistory(l: Ledger, cs: seq<Commit>)
    decreases |cs|
  {
    cs != [] ==> FromHistory(l, cs[0]) && AllFromHistory(Next(l, cs[0]), cs[1..])
  }

  ghost predicate AlwaysWithin(l: Ledger, cs: seq<Commit>)
    decreases |cs|
  {
    Within(l) && (cs != [] ==> AlwaysWithin(Next(l, cs[0]), cs[1..]))
  }

  ghost predicate AllFit(l: Ledger, cs: seq<Commit>)
    decreases |cs|
  {
    cs != [] ==> (Apply(l, cs[0]).Some? ==> CommitFits(l, cs[0])) && AllFit(Next(l, cs[0]), cs[1..])
  }

  /** Over every interleaving of commits on reads however old: within every amount throughout exactly when every refund fits. */
  lemma {:induction false} InterleavedWithinExactly(l: Ledger, cs: seq<Commit>)
    requires Sound(l) && Within(l) && AllFromHistory(l, cs)
    ensures AlwaysWithin(l, cs) <==> AllFit(l, cs)
    decreases |cs|
  {
    if cs != [] {
      CommitKeeps(l, cs[0]);
      if Apply(l, cs[0]).Some? { CommitWithinExactly(l, cs[0]); }
      if Within(Next(l, cs[0])) { InterleavedWithinExactly(Next(l, cs[0]), cs[1..]); }
    }
  }

  ghost predicate AlwaysBooked(l: Ledger, cs: seq<Commit>)
    decreases |cs|
  {
    BookMatches(l) && (cs != [] ==> AlwaysBooked(Next(l, cs[0]), cs[1..]))
  }

  ghost predicate AllBook(l: Ledger, cs: seq<Commit>)
    decreases |cs|
  {
    cs != [] ==> (Apply(l, cs[0]).Some? ==> CommitBooks(l, cs[0])) && AllBook(Next(l, cs[0]), cs[1..])
  }

  /** The same for RefundedMinor = the totals of the refunded orders. */
  lemma {:induction false} InterleavedBooksExactly(l: Ledger, cs: seq<Commit>)
    requires Sound(l) && BookMatches(l) && AllFromHistory(l, cs)
    ensures AlwaysBooked(l, cs) <==> AllBook(l, cs)
    decreases |cs|
  {
    if cs != [] {
      CommitKeeps(l, cs[0]);
      if Apply(l, cs[0]).Some? { CommitBooksExactly(l, cs[0]); }
      if BookMatches(Next(l, cs[0])) { InterleavedBooksExactly(Next(l, cs[0]), cs[1..]); }
    }
  }
}
