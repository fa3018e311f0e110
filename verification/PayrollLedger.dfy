/** Payroll batches, entries, disputes and refunds over the order table. */
module PayrollLedger {
  import opened Wrappers
  import opened OrderTypes
  import opened Grouping

  datatype Batch = Batch(start: int, end: int, lockedBy: Option<nat>)

  datatype Entry = Entry(batch: nat, user: nat, orderIds: seq<nat>, amount: int, refunded: int)

  datatype DisputeStatus = Open | ResolvedRefund | ResolvedReject

  /** entry is None while the order is in no payroll entry. */
  datatype Dispute = Dispute(entry: Option<nat>, order: nat, openedBy: nat, status: DisputeStatus, refund: int)

  /** The payroll messages of the outbox. */
  datatype Note =
    | OrderReversed(order: nat, entry: Option<nat>, refund: int)
    | DisputeResolved(dispute: nat, order: nat, status: DisputeStatus, refund: int)
    | BatchLocked(batch: nat)

  datatype PayrollError =
    | OrderNotFound | EntryNotFound | BatchNotFound | DisputeNotFound | InvalidPeriod | BatchPeriodExists | AlreadyLocked
    | InvalidTransition | Forbidden | NotInEntry | NotDisputable | NegativeRefund | RefundExceedsOrder | InvalidResolution

  datatype Ledger = Ledger(orders: seq<Order>, batches: seq<Batch>, entries: seq<Entry>, disputes: seq<Dispute>, notes: seq<Note>)

  predicate Charged(o: Order) { o.status in {PickedUp, NoShow} }

  predicate Settled(o: Order) { o.status in {PickedUp, NoShow, Refunded} }

  function TotalFn(orders: seq<Order>): nat -> int {
    (id: nat) => if id < |orders| then orders[id].total else 0
  }

  function UserFn(orders: seq<Order>): nat -> nat {
    (id: nat) => if id < |orders| then orders[id].user else 0
  }

  function RefundedFn(orders: seq<Order>): nat -> int {
    (id: nat) => if id < |orders| && orders[id].status == Refunded then orders[id].total else 0
  }

  // ---------------------------------------------------------------- drafts

  /** The rows of ListPickedOrNoShowInPeriod: every charged order of the period once, in the order the query gives. */
  ghost predicate ListsCharged(orders: seq<Order>, start: int, end: int, listing: seq<nat>) {
    && Distinct(listing)
    && forall id: nat :: id in listing <==> id < |orders| && Charged(orders[id]) && start <= orders[id].date <= end
  }

  /** A listing of settled orders of the period, as an earlier moment may have given it. */
  ghost predicate ListsSettled(orders: seq<Order>, start: int, end: int, listing: seq<nat>) {
    && Distinct(listing)
    && forall id | id in listing :: id < |orders| && Settled(orders[id]) && start <= orders[id].date <= end
  }

  ghost predicate HasUser(orders: seq<Order>, listing: seq<nat>, user: nat) {
    exists k :: 0 <= k < |listing| && UserFn(orders)(listing[k]) == user
  }

  /** The users of the listing in the order in which the map is iterated. */
  ghost predicate ListsUsers(orders: seq<Order>, listing: seq<nat>, users: seq<nat>) {
    && ListsKeys(users, listing, UserFn(orders))
    && forall u | u in users :: HasUser(orders, listing, u)
  }

  function DraftEntry(orders: seq<Order>, batch: nat, listing: seq<nat>, user: nat): Entry {
    var ids := Group(listing, UserFn(orders), user);
    Entry(batch, user, ids, SumBy(ids, TotalFn(orders)), 0)
  }

  function DraftEntries(orders: seq<Order>, batch: nat, listing: seq<nat>, users: seq<nat>): seq<Entry> {
    seq(|users|, j requires 0 <= j < |users| => DraftEntry(orders, batch, listing, users[j]))
  }

  predicate PeriodTaken(l: Ledger, start: int, end: int) {
    exists b | 0 <= b < |l.batches| :: l.batches[b].start == start && l.batches[b].end == end
  }

  function BuildDraft(l: Ledger, start: int, end: int, listing: seq<nat>, users: seq<nat>): Result<Ledger, PayrollError> {
    if start > end then Failure(InvalidPeriod)
    else if PeriodTaken(l, start, end) then Failure(BatchPeriodExists)
    else
      Success(l.(batches := l.batches + [Batch(start, end, None)],
                 entries := l.entries + DraftEntries(l.orders, |l.batches|, listing, users)))
  }

  function Lock(l: Ledger, batch: nat, admin: nat): Result<Ledger, PayrollError> {
    if batch >= |l.batches| then Failure(BatchNotFound)
    else if l.batches[batch].lockedBy.Some? then Failure(AlreadyLocked)
    else Success(l.(batches := l.batches[batch := l.batches[batch].(lockedBy := Some(admin))],
                    notes := l.notes + [BatchLocked(batch)]))
  }

  // ---------------------------------------------------------------- refunds

  /** The entry of the user that lists the order, if any. */
  function FindEntry(entries: seq<Entry>, user: nat, order: nat): Option<nat> {
    if entries == [] then None
    else
      match FindEntry(entries[..|entries| - 1], user, order)
      case Some(i) => Some(i)
      case None =>
        var last := entries[|entries| - 1];
        if last.user == user && order in last.orderIds then Some(|entries| - 1) else None
  }

  function Bumped(entries: seq<Entry>, at: Option<nat>, refund: int): seq<Entry> {
    if at.Some? && at.value < |entries|
    then entries[at.value := entries[at.value].(refunded := entries[at.value].refunded + refund)]
    else entries
  }

  function Refund(l: Ledger, id: nat): Ledger
    requires id < |l.orders|
  {
    l.(orders := l.orders[id := l.orders[id].(status := Refunded)])
  }

  /** Idempotent: a refunded order is left alone. */
  function ReverseOrder(l: Ledger, id: nat): Result<Ledger, PayrollError> {
    if id >= |l.orders| then Failure(OrderNotFound)
    else if l.orders[id].status == Refunded then Success(l)
    else if !Charged(l.orders[id]) then Failure(InvalidTransition)
    else
      var o := l.orders[id];
      var at := FindEntry(l.entries, o.user, id);
      Success(Refund(l, id).(entries := Bumped(l.entries, at, o.total), notes := l.notes + [OrderReversed(id, at, o.total)]))
  }

  // ---------------------------------------------------------------- disputes

  function OpenDispute(l: Ledger, entry: nat, order: nat, opener: nat): Result<Ledger, PayrollError> {
    if entry >= |l.entries| then Failure(EntryNotFound)
    else if l.entries[entry].user != opener then Failure(Forbidden)
    else if order !in l.entries[entry].orderIds then Failure(NotInEntry)
    else Success(l.(disputes := l.disputes + [Dispute(Some(entry), order, opener, Open, 0)]))
  }

  function OpenDisputeByOrder(l: Ledger, order: nat, opener: nat): Result<Ledger, PayrollError> {
    match FindEntry(l.entries, opener, order)
    case Some(entry) => OpenDispute(l, entry, order, opener)
    case None =>
      if order >= |l.orders| then Failure(OrderNotFound)
      else if l.orders[order].user != opener then Failure(Forbidden)
      else if !Charged(l.orders[order]) then Failure(NotDisputable)
      else Success(l.(disputes := l.disputes + [Dispute(None, order, opener, Open, 0)]))
  }

  /** A refund also counts on an order that is already refunded; only a charged order changes status. */
  function ResolveDispute(l: Ledger, dispute: nat, status: DisputeStatus, refund: int): Result<Ledger, PayrollError> {
    if status == Open then Failure(InvalidResolution)
    else if dispute >= |l.disputes| then Failure(DisputeNotFound)
    else if l.disputes[dispute].status != Open then Failure(InvalidTransition)
    else
      var d := l.disputes[dispute];
      var resolved := l.(disputes := l.disputes[dispute := d.(status := status, refund := refund)],
                         notes := l.notes + [DisputeResolved(dispute, d.order, status, refund)]);
      if status == ResolvedReject then Success(resolved)
      else if refund < 0 then Failure(NegativeRefund)
      else if d.order >= |l.orders| then Failure(OrderNotFound)
      else if refund > l.orders[d.order].total then Failure(RefundExceedsOrder)
      else if d.entry.Some? && d.entry.value >= |l.entries| then Failure(EntryNotFound)
      else
        var paid := resolved.(entries := Bumped(l.entries, d.entry, refund));
        Success(if Charged(l.orders[d.order]) then Refund(paid, d.order) else paid)
  }

  // ---------------------------------------------------------------- steps

  datatype Step =
    | Build(start: int, end: int, listing: seq<nat>, users: seq<nat>)
    | LockBatch(batch: nat, admin: nat)
    | Reverse(order: nat)
    | OpenByEntry(entry: nat, order: nat, opener: nat)
    | OpenByOrder(order: nat, opener: nat)
    | Resolve(dispute: nat, status: DisputeStatus, refund: int)
    | NewOrder(row: Order)      // the order service places an order
    | MoveOrder(order: nat, row: Order)  // the order service changes an order that is not settled yet

  function Attempt(l: Ledger, s: Step): Result<Ledger, PayrollError> {
    match s
    case Build(start, end, listing, users) => BuildDraft(l, start, end, listing, users)
    case LockBatch(batch, admin) => Lock(l, batch, admin)
    case Reverse(order) => ReverseOrder(l, order)
    case OpenByEntry(entry, order, opener) => OpenDispute(l, entry, order, opener)
    case OpenByOrder(order, opener) => OpenDisputeByOrder(l, order, opener)
    case Resolve(dispute, status, refund) => ResolveDispute(l, dispute, status, refund)
    case NewOrder(row) => Success(l.(orders := l.orders + [row]))
    case MoveOrder(order, row) =>
      if order >= |l.orders| then Failure(OrderNotFound) else Success(l.(orders := l.orders[order := row]))
  }

  /** A failed call leaves the tables as they were. */
  function Perform(l: Ledger, s: Step): Ledger {
    match Attempt(l, s) case Success(l') => l' case Failure(_) => l
  }

  function RunAll(l: Ledger, steps: seq<Step>): Ledger
    decreases |steps|
  {
    if steps == [] then l else RunAll(Perform(l, steps[0]), steps[1..])
  }

  /**
   * What the rest of the system guarantees about a step: the query lists the charged orders, a new period overlaps no
   * other one, and the order service leaves settled orders alone and never refunds.
   */
  ghost predicate Legal(l: Ledger, s: Step) {
    match s
    case Build(start, end, listing, users) =>
      && ListsCharged(l.orders, start, end, listing) && ListsUsers(l.orders, listing, users)
      && (PeriodTaken(l, start, end) || DisjointPeriod(l, start, end))
    case NewOrder(row) => !Settled(row) && row.total >= 0
    case MoveOrder(order, row) => order < |l.orders| ==> !Settled(l.orders[order]) && row.status != Refunded && row.total >= 0
    case _ => true
  }

  // ---------------------------------------------------------------- the invariant

  ghost predicate EntryOk(l: Ledger, i: nat)
    requires i < |l.entries|
  {
    var e := l.entries[i];
    && Distinct(e.orderIds)
    && (forall id | id in e.orderIds ::
          id < |l.orders| && l.orders[id].user == e.user && Settled(l.orders[id]) && InPeriod(l, e.batch, l.orders[id].date))
    && e.amount == SumBy(e.orderIds, TotalFn(l.orders))
  }

  ghost predicate InPeriod(l: Ledger, batch: nat, date: int) {
    batch < |l.batches| && l.batches[batch].start <= date <= l.batches[batch].end
  }

  /** Each order is in at most one entry. */
  ghost predicate NoDoubleCharge(l: Ledger) {
    forall i, j, id | 0 <= i < |l.entries| && 0 <= j < |l.entries| && id in l.entries[i].orderIds && id in l.entries[j].orderIds :: i == j
  }

  ghost predicate DisputeOk(l: Ledger, d: Dispute) {
    && d.order < |l.orders| && Settled(l.orders[d.order])
    && (d.entry.Some? ==> d.entry.value < |l.entries| && d.order in l.entries[d.entry.value].orderIds)
  }

  predicate IsRefund(n: Note) {
    n.OrderReversed? || (n.DisputeResolved? && n.status == ResolvedRefund)
  }

  /** The entry a refund was recorded against: that of the reversal, or that of the dispute. */
  function EntryOfNote(disputes: seq<Dispute>, n: Note): Option<nat> {
    if n.OrderReversed? then n.entry
    else if n.DisputeResolved? && n.status == ResolvedRefund && n.dispute < |disputes| then disputes[n.dispute].entry
    else None
  }

  ghost predicate NoteOk(l: Ledger, n: Note) {
    && (n.DisputeResolved? ==> n.dispute < |l.disputes| && l.disputes[n.dispute].order == n.order)
    && (IsRefund(n) ==> n.order < |l.orders| && 0 <= n.refund <= l.orders[n.order].total && Settled(l.orders[n.order]))
    && (EntryOfNote(l.disputes, n).Some? ==>
          var i := EntryOfNote(l.disputes, n).value;
          i < |l.entries| && IsRefund(n) && n.order in l.entries[i].orderIds)
  }

  function RecordFn(disputes: seq<Dispute>, i: nat): Note -> int {
    (n: Note) => if EntryOfNote(disputes, n) == Some(i) && IsRefund(n) then n.refund else 0
  }

  /** The refunds recorded against entry i. */
  function Recorded(l: Ledger, i: nat): int {
    SumBy(l.notes, RecordFn(l.disputes, i))
  }

  ghost predicate Sound(l: Ledger) {
    && (forall i: nat | i < |l.entries| :: EntryOk(l, i))
    && NoDoubleCharge(l)
    && (forall d | d in l.disputes :: DisputeOk(l, d))
    && (forall n | n in l.notes :: NoteOk(l, n))
    && (forall i: nat | i < |l.orders| :: l.orders[i].total >= 0)
  }

  /** RefundedMinor of every entry is the sum of the refunds recorded against it. */
  ghost predicate RecordsMatch(l: Ledger) {
    forall i: nat | i < |l.entries| :: l.entries[i].refunded == Recorded(l, i)
  }

  /** RefundedMinor of every entry is the sum of the totals of its refunded orders. */
  ghost predicate BookMatches(l: Ledger) {
    forall i: nat | i < |l.entries| :: l.entries[i].refunded == SumBy(l.entries[i].orderIds, RefundedFn(l.orders))
  }

  const EMPTY_LEDGER: Ledger := Ledger([], [], [], [], [])

  // ---------------------------------------------------------------- soundness of each step

  /** Entries of a table in which settled orders kept their user, date and total. */
  lemma EntriesStay(l: Ledger, l': Ledger, i: nat)
    requires i < |l.entries| && EntryOk(l, i)
    requires i < |l'.entries| && l'.entries[i].orderIds == l.entries[i].orderIds && l'.entries[i].amount == l.entries[i].amount
    requires l'.entries[i].user == l.entries[i].user && l'.entries[i].batch == l.entries[i].batch
    requires |l.batches| <= |l'.batches|
    requires forall b | 0 <= b < |l.batches| :: l'.batches[b].start == l.batches[b].start && l'.batches[b].end == l.batches[b].end
    requires SettledStay(l.orders, l'.orders)
    ensures EntryOk(l', i)
  {
    SumSame(l.entries[i].orderIds, TotalFn(l.orders), TotalFn(l'.orders));
  }

  /** Settled orders stay settled with the same user, date and total. */
  ghost predicate SettledStay(a: seq<Order>, b: seq<Order>) {
    && |a| <= |b|
    && forall id: nat | id < |a| && Settled(a[id]) ::
         Settled(b[id]) && b[id].user == a[id].user && b[id].date == a[id].date && b[id].total == a[id].total
  }

  lemma FindEntryFinds(entries: seq<Entry>, user: nat, order: nat)
    ensures var at := FindEntry(entries, user, order);
            && (at.Some? ==> at.value < |entries| && entries[at.value].user == user && order in entries[at.value].orderIds)
            && (at.None? ==> forall i | 0 <= i < |entries| && entries[i].user == user :: order !in entries[i].orderIds)
  {
  }

  /** Two entries that list one order are of batches with a common day: a drafted entry shares no order with an older one. */
  lemma DraftChargesOnce(l: Ledger, l': Ledger, i: nat, j: nat, id: nat)
    requires Sound(l) && |l.entries| <= i < |l'.entries| && j < |l'.entries| && l'.entries[..|l.entries|] == l.entries
    requires EntryOk(l', i) && EntryOk(l', j) && id in l'.entries[i].orderIds && id in l'.entries[j].orderIds
    requires |l'.batches| == |l.batches| + 1 && l'.entries[i].batch == |l.batches|
    requires forall b | 0 <= b < |l.batches| :: l'.batches[|l.batches|].end < l'.batches[b].start || l'.batches[b].end < l'.batches[|l.batches|].start
    ensures j >= |l.entries| && l'.entries[i].user == l'.entries[j].user
  {
    assert InPeriod(l', l'.entries[i].batch, l'.orders[id].date);
    assert InPeriod(l', l'.entries[j].batch, l'.orders[id].date);
    assert j < |l.entries| ==> EntryOk(l, j);
  }

  /** What a draft adds: one batch, and one entry for each user. */
  ghost predicate Drafted(l: Ledger, l': Ledger, listing: seq<nat>, users: seq<nat>) {
    && |l'.batches| == |l.batches| + 1 && l'.orders == l.orders
    && (forall b | 0 <= b < |l.batches| :: l'.batches[b] == l.batches[b])
    && |l'.entries| == |l.entries| + |users| && l'.entries[..|l.entries|] == l.entries
    && (forall i | |l.entries| <= i < |l'.entries| :: l'.entries[i] == DraftEntry(l.orders, |l.batches|, listing, users[i - |l.entries|]))
  }

  lemma DraftedEntryOk(l: Ledger, l': Ledger, listing: seq<nat>, users: seq<nat>, i: nat)
    requires Sound(l) && Drafted(l, l', listing, users) && i < |l'.entries|
    requires var b := l'.batches[|l.batches|]; ListsSettled(l.orders, b.start, b.end, listing)
    ensures EntryOk(l', i)
  {
    if i < |l.entries| {
      assert l'.entries[i] == l.entries[i];
      EntriesStay(l, l', i);
    } else {
      var u, key := users[i - |l.entries|], UserFn(l.orders);
      assert l'.entries[i] == DraftEntry(l.orders, |l.batches|, listing, u);
      GroupDistinct(listing, key, u);
      forall id ensures id in Group(listing, key, u) <==> id in listing && key(id) == u { InGroup(listing, key, u, id); }
    }
  }

  lemma DraftNoDoubleCharge(l: Ledger, l': Ledger, listing: seq<nat>, users: seq<nat>)
    requires Sound(l) && Drafted(l, l', listing, users) && Distinct(users)
    requires forall i: nat | i < |l'.entries| :: EntryOk(l', i)
    requires forall b | 0 <= b < |l.batches| :: l'.batches[|l.batches|].end < l'.batches[b].start || l'.batches[b].end < l'.batches[|l.batches|].start
    ensures NoDoubleCharge(l')
  {
    var n := |l.entries|;
    forall i: nat, j: nat, id | i < |l'.entries| && j < |l'.entries| && id in l'.entries[i].orderIds && id in l'.entries[j].orderIds
      ensures i == j
    {
      if i < n && j < n {
        assert l'.entries[i] == l.entries[i] && l'.entries[j] == l.entries[j];
      } else {
        var new_, other := if i >= n then i else j, if i >= n then j else i;
        DraftChargesOnce(l, l', new_, other, id);
        assert users[new_ - n] == users[other - n];
      }
    }
  }

  /** Periods that overlap no existing one, as the service expects of its caller. */
  ghost predicate DisjointPeriod(l: Ledger, start: int, end: int) {
    forall b | 0 <= b < |l.batches| :: end < l.batches[b].start || l.batches[b].end < start
  }

  lemma DraftSound(l: Ledger, start: int, end: int, listing: seq<nat>, users: seq<nat>)
    requires Sound(l) && BuildDraft(l, start, end, listing, users).Success? && DisjointPeriod(l, start, end)
    requires ListsSettled(l.orders, start, end, listing) && ListsUsers(l.orders, listing, users)
    ensures Sound(BuildDraft(l, start, end, listing, users).value)
  {
    var l' := BuildDraft(l, start, end, listing, users).value;
    assert Drafted(l, l', listing, users);
    forall i: nat | i < |l'.entries| ensures EntryOk(l', i) { DraftedEntryOk(l, l', listing, users, i); }
    DraftNoDoubleCharge(l, l', listing, users);
    forall n | n in l'.notes ensures NoteOk(l', n) { assert NoteOk(l, n); }
    forall d | d in l'.disputes ensures DisputeOk(l', d) { assert DisputeOk(l, d); }
  }

  lemma BuildSound(l: Ledger, start: int, end: int, listing: seq<nat>, users: seq<nat>)
    requires Sound(l) && Legal(l, Build(start, end, listing, users)) && BuildDraft(l, start, end, listing, users).Success?
    ensures Sound(BuildDraft(l, start, end, listing, users).value)
  {
    DraftSound(l, start, end, listing, users);
  }

  /** Steps that add at most one dispute or note and change rows in place. */
  lemma InPlaceSound(l: Ledger, l': Ledger)
    requires Sound(l) && SettledStay(l.orders, l'.orders)
    requires |l'.entries| == |l.entries| && |l.disputes| <= |l'.disputes|
    requires forall i: nat | i < |l.entries| ::
               && l'.entries[i].orderIds == l.entries[i].orderIds && l'.entries[i].amount == l.entries[i].amount
               && l'.entries[i].user == l.entries[i].user && l'.entries[i].batch == l.entries[i].batch
    requires |l.batches| == |l'.batches|
    requires forall b | 0 <= b < |l.batches| :: l'.batches[b].start == l.batches[b].start && l'.batches[b].end == l.batches[b].end
    requires forall d: nat | d < |l.disputes| :: l'.disputes[d].entry == l.disputes[d].entry && l'.disputes[d].order == l.disputes[d].order
    requires forall d: nat | |l.disputes| <= d < |l'.disputes| :: DisputeOk(l', l'.disputes[d])
    requires forall n | n in l'.notes && n !in l.notes :: NoteOk(l', n)
    requires forall i: nat | i < |l'.orders| :: l'.orders[i].total >= 0
    ensures Sound(l')
  {
    forall i: nat | i < |l'.entries| ensures EntryOk(l', i) { EntriesStay(l, l', i); }
    forall d | d in l'.disputes ensures DisputeOk(l', d) {
      var k :| 0 <= k < |l'.disputes| && l'.disputes[k] == d;
      if k < |l.disputes| { assert DisputeOk(l, l.disputes[k]); }
    }
    forall n | n in l'.notes ensures NoteOk(l', n) {
      if n in l.notes { assert NoteOk(l, n); }
    }
  }

  lemma ReverseSound(l: Ledger, id: nat)
    requires Sound(l) && ReverseOrder(l, id).Success?
    ensures Sound(ReverseOrder(l, id).value)
  {
    if l.orders[id].status != Refunded {
      FindEntryFinds(l.entries, l.orders[id].user, id);
      InPlaceSound(l, ReverseOrder(l, id).value);
    }
  }

  lemma ResolveSound(l: Ledger, dispute: nat, status: DisputeStatus, refund: int)
    requires Sound(l) && ResolveDispute(l, dispute, status, refund).Success?
    ensures Sound(ResolveDispute(l, dispute, status, refund).value)
  {
    var l' := ResolveDispute(l, dispute, status, refund).value;
    assert DisputeOk(l, l.disputes[dispute]);
    InPlaceSound(l, l');
  }

  lemma StepSound(l: Ledger, s: Step)
    requires Sound(l) && Legal(l, s)
    ensures Sound(Perform(l, s))
  {
    if Attempt(l, s).Success? {
      match s
      case Build(start, end, listing, users) => BuildSound(l, start, end, listing, users);
      case Reverse(order) => ReverseSound(l, order);
      case Resolve(dispute, status, refund) => ResolveSound(l, dispute, status, refund);
      case OpenByEntry(entry, order, opener) =>
        assert EntryOk(l, entry);
        InPlaceSound(l, Perform(l, s));
      case OpenByOrder(order, opener) =>
        FindEntryFinds(l.entries, opener, order);
        if FindEntry(l.entries, opener, order).Some? { assert EntryOk(l, FindEntry(l.entries, opener, order).value); }
        InPlaceSound(l, Perform(l, s));
      case _ => InPlaceSound(l, Perform(l, s));
    }
  }
}
