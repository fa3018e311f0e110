/** The payroll service over its tables. */
module PayrollService {
  import opened Wrappers
  import opened OrderTypes
  import opened Grouping
  import opened PayrollLedger
  import opened Refunds
  import opened LedgerEffects

  datatype UserAcc = UserAcc(orderIds: seq<nat>, amount: int)

  function AccOf(orders: seq<Order>, listing: seq<nat>, user: nat): UserAcc {
    var ids := Group(listing, UserFn(orders), user);
    UserAcc(ids, SumBy(ids, TotalFn(orders)))
  }

  lemma GroupSnoc(ids: seq<nat>, id: nat, key: nat -> nat, g: nat)
    ensures Group(ids + [id], key, g) == Group(ids, key, g) + if key(id) == g then [id] else []
  {
    assert (ids + [id])[..|ids|] == ids;
  }

  lemma HasUserSnoc(orders: seq<Order>, ids: seq<nat>, id: nat, user: nat)
    ensures HasUser(orders, ids + [id], user) <==> HasUser(orders, ids, user) || UserFn(orders)(id) == user
  {
    var all := ids + [id];
    assert all[|ids|] == id;
    assert forall k | 0 <= k < |ids| :: all[k] == ids[k];
  }

  lemma AccSnoc(orders: seq<Order>, ids: seq<nat>, id: nat, user: nat)
    requires id < |orders|
    ensures AccOf(orders, ids + [id], user) ==
            if orders[id].user == user
            then UserAcc(AccOf(orders, ids, user).orderIds + [id], AccOf(orders, ids, user).amount + orders[id].total)
            else AccOf(orders, ids, user)
    ensures HasUser(orders, ids + [id], user) <==> HasUser(orders, ids, user) || orders[id].user == user
  {
    var before := Group(ids, UserFn(orders), user);
    GroupSnoc(ids, id, UserFn(orders), user);
    SumSnoc(before, id, TotalFn(orders));
    assert before + [] == before;
    HasUserSnoc(orders, ids, id, user);
  }

  lemma {:induction false} NoUserNoAcc(orders: seq<Order>, ids: seq<nat>, user: nat)
    requires !HasUser(orders, ids, user)
    ensures AccOf(orders, ids, user) == UserAcc([], 0)
  {
    if ids != [] {
      var init, key := ids[..|ids| - 1], UserFn(orders);
      assert forall k | 0 <= k < |init| :: key(init[k]) == key(ids[k]);
      assert key(ids[|ids| - 1]) != user;
      NoUserNoAcc(orders, init, user);
    }
  }

  /** The map has the user exactly if the ids do, with the own ids and their sum. */
  ghost predicate AggregatesUser(orders: seq<Order>, ids: seq<nat>, byUser: map<nat, UserAcc>, u: nat) {
    (u in byUser <==> HasUser(orders, ids, u)) && (u in byUser ==> byUser[u] == AccOf(orders, ids, u))
  }

  ghost predicate Aggregates(orders: seq<Order>, ids: seq<nat>, byUser: map<nat, UserAcc>) {
    forall u: nat :: AggregatesUser(orders, ids, byUser, u)
  }

  function Charge(byUser: map<nat, UserAcc>, user: nat, id: nat, total: int): map<nat, UserAcc> {
    var acc := if user in byUser then byUser[user] else UserAcc([], 0);
    byUser[user := UserAcc(acc.orderIds + [id], acc.amount + total)]
  }

  /** Charging one order changes its own user's account and no other. */
  lemma ChargeOne(byUser: map<nat, UserAcc>, user: nat, id: nat, total: int, u: nat, before: UserAcc, after: UserAcc)
    requires before == if u in byUser then byUser[u] else UserAcc([], 0)
    requires after == if user == u then UserAcc(before.orderIds + [id], before.amount + total) else before
    ensures u in Charge(byUser, user, id, total) <==> u in byUser || user == u
    ensures u in Charge(byUser, user, id, total) ==> Charge(byUser, user, id, total)[u] == after
  {
  }

  lemma ChargeUser(orders: seq<Order>, ids: seq<nat>, id: nat, byUser: map<nat, UserAcc>, u: nat)
    requires id < |orders| && AggregatesUser(orders, ids, byUser, u)
    ensures AggregatesUser(orders, ids + [id], Charge(byUser, orders[id].user, id, orders[id].total), u)
  {
    AccSnoc(orders, ids, id, u);
    if u !in byUser { NoUserNoAcc(orders, ids, u); }
    ChargeOne(byUser, orders[id].user, id, orders[id].total, u, AccOf(orders, ids, u), AccOf(orders, ids + [id], u));
  }

  lemma AggregatesSnoc(orders: seq<Order>, ids: seq<nat>, id: nat, byUser: map<nat, UserAcc>)
    requires id < |orders| && Aggregates(orders, ids, byUser)
    ensures Aggregates(orders, ids + [id], Charge(byUser, orders[id].user, id, orders[id].total))
  {
    var next, all := Charge(byUser, orders[id].user, id, orders[id].total), ids + [id];
    forall u: nat ensures AggregatesUser(orders, all, next, u) {
      assert AggregatesUser(orders, ids, byUser, u);
      ChargeUser(orders, ids, id, byUser, u);
    }
  }

  /** One pass over the orders: per user the ids in order and the exact sum of the totals. */
  method AggregateOrdersByUser(orders: seq<Order>, listing: seq<nat>) returns (byUser: map<nat, UserAcc>)
    requires forall id | id in listing :: id < |orders|
    ensures Aggregates(orders, listing, byUser)
  {
    byUser := map[];
    for i := 0 to |listing|
      invariant Aggregates(orders, listing[..i], byUser)
    {
      var id := listing[i];
      assert id in listing;
      var user := orders[id].user;
      PrefixSnoc(listing, i);
      AggregatesSnoc(orders, listing[..i], id, byUser);
      var acc := if user in byUser then byUser[user] else UserAcc([], 0);
      byUser := byUser[user := UserAcc(acc.orderIds + [id], acc.amount + orders[id].total)];
    }
    assert listing[..|listing|] == listing;
  }

  lemma DraftEntriesSnoc(orders: seq<Order>, batch: nat, listing: seq<nat>, users: seq<nat>, u: nat)
    ensures DraftEntries(orders, batch, listing, users + [u]) ==
            DraftEntries(orders, batch, listing, users) + [Entry(batch, u, AccOf(orders, listing, u).orderIds, AccOf(orders, listing, u).amount, 0)]
  {
  }

  /** One entry per user of the map, in whatever order the map is iterated. */
  method EntriesFromMap(orders: seq<Order>, batch: nat, listing: seq<nat>, byUser: map<nat, UserAcc>)
    returns (created: seq<Entry>, users: seq<nat>)
    requires Aggregates(orders, listing, byUser)
    ensures ListsUsers(orders, listing, users)
    ensures created == DraftEntries(orders, batch, listing, users)
  {
    created, users := [], [];
    var pending := byUser.Keys;
    while pending != {}
      invariant pending <= byUser.Keys
      invariant forall u :: u in users <==> u in byUser.Keys - pending
      invariant Distinct(users)
      invariant created == DraftEntries(orders, batch, listing, users)
    {
      var u :| u in pending;
      DistinctSnoc(users, u);
      assert AggregatesUser(orders, listing, byUser, u);
      DraftEntriesSnoc(orders, batch, listing, users, u);
      created := created + [Entry(batch, u, byUser[u].orderIds, byUser[u].amount, 0)];
      users := users + [u];
      pending := pending - {u};
    }
    forall i | 0 <= i < |listing| ensures UserFn(orders)(listing[i]) in users {
      assert HasUser(orders, listing, UserFn(orders)(listing[i]));
      assert AggregatesUser(orders, listing, byUser, UserFn(orders)(listing[i]));
    }
    forall u | u in users ensures HasUser(orders, listing, u) { assert AggregatesUser(orders, listing, byUser, u); }
  }

  class Store {
    var orders: seq<Order>
    var batches: seq<Batch>
    var entries: seq<Entry>
    var disputes: seq<Dispute>
    var notes: seq<Note>

    constructor ()
      ensures State() == EMPTY_LEDGER
    {
      orders, batches, entries, disputes, notes := [], [], [], [], [];
    }

    function State(): Ledger
      reads this
    {
      Ledger(orders, batches, entries, disputes, notes)
    }

    /** The map of users is iterated in an arbitrary order; the batch and its entries commit together. */
    method BuildDraft(start: int, end: int, listing: seq<nat>) returns (r: Result<nat, PayrollError>)
      requires ListsCharged(orders, start, end, listing)
      modifies this
      ensures exists users: seq<nat> :: ListsUsers(old(orders), listing, users) &&
                match PayrollLedger.BuildDraft(old(State()), start, end, listing, users)
                case Failure(e) => r == Failure(e) && State() == old(State())
                case Success(l) => r == Success(old(|batches|)) && State() == l
      ensures old(Valid()) && DisjointPeriod(old(State()), start, end) ==> Valid()
      ensures r.Success? <==> start <= end && forall b | 0 <= b < |old(batches)| :: !(old(batches)[b].start == start && old(batches)[b].end == end)
      ensures r.Success? ==>
                && r.value == |old(batches)| && batches == old(batches) + [Batch(start, end, None)]
                && |entries| >= |old(entries)| && entries[..|old(entries)|] == old(entries)
                && orders == old(orders) && disputes == old(disputes) && notes == old(notes)
      ensures r.Failure? ==> State() == old(State()) && r.error == if start > end then InvalidPeriod else BatchPeriodExists
    {
      var byUser := AggregateOrdersByUser(orders, listing);
      var batch := |batches|;
      var created, users := EntriesFromMap(orders, batch, listing, byUser);
      if old(Valid()) && DisjointPeriod(State(), start, end) {
        StepSound(State(), Build(start, end, listing, users));
        StepKeepsRecords(State(), Build(start, end, listing, users));
      }
      if start > end { return Failure(InvalidPeriod); }
      for b := 0 to |batches|
        invariant forall k | 0 <= k < b :: !(batches[k].start == start && batches[k].end == end)
      {
        if batches[b].start == start && batches[b].end == end { return Failure(BatchPeriodExists); }
      }
      batches := batches + [Batch(start, end, None)];
      entries := entries + created;
      return Success(batch);
    }

    /** A locked batch is never locked again, nor is anything else changed. */
    method Lock(batch: nat, admin: nat) returns (r: Result<(), PayrollError>)
      modifies this
      ensures State() == Perform(old(State()), LockBatch(batch, admin)) && r.Success? == Attempt(old(State()), LockBatch(batch, admin)).Success?
      ensures r.Success? ==> batch < |batches| && batches[batch].lockedBy == Some(admin)
      ensures r.Failure? ==> State() == old(State()) && r.error == if batch >= |old(batches)| then BatchNotFound else AlreadyLocked
      ensures forall b | 0 <= b < |old(batches)| && (old(batches)[b].lockedBy.Some? || b != batch) :: b < |batches| && batches[b] == old(batches)[b]
      ensures old(Valid()) ==> Valid()
    {
      if old(Valid()) { CallKeeps(State(), LockBatch(batch, admin)); }
      if batch >= |batches| { return Failure(BatchNotFound); }
      if batches[batch].lockedBy.Some? { return Failure(AlreadyLocked); }
      batches := batches[batch := batches[batch].(lockedBy := Some(admin))];
      notes := notes + [BatchLocked(batch)];
      return Success(());
    }

    /** Sound tables whose entries carry the refunds recorded. */
    ghost predicate Valid()
      reads this
    {
      Sound(State()) && RecordsMatch(State())
    }

    method BumpEntry(at: Option<nat>, refund: int)
      modifies this`entries
      ensures entries == Bumped(old(entries), at, refund)
    {
      if at.Some? && at.value < |entries| {
        entries := entries[at.value := entries[at.value].(refunded := entries[at.value].refunded + refund)];
      }
    }

    /** Settled orders only; the order ends refunded and its total is paid, once, into the entry that lists it. */
    method ReverseOrder(id: nat) returns (r: Result<(), PayrollError>)
      modifies this
      ensures State() == Perform(old(State()), Reverse(id)) && r.Success? == Attempt(old(State()), Reverse(id)).Success?
      ensures old(Valid()) ==> Valid() && (r.Success? <==> id < |old(orders)| && Settled(old(orders)[id]))
      ensures old(Valid()) && r.Success? ==>
                && orders == old(orders)[id := old(orders)[id].(status := Refunded)]
                && PaidInto(old(entries), entries, id, if Charged(old(orders)[id]) then old(orders)[id].total else 0)
      ensures r.Failure? ==> State() == old(State()) && r.error == if id >= |old(orders)| then OrderNotFound else InvalidTransition
    {
      if old(Valid()) {
        CallKeeps(State(), Reverse(id));
        ReverseEffect(State(), id);
      }
      if id >= |orders| { return Failure(OrderNotFound); }
      var o := orders[id];
      if o.status == Refunded { return Success(()); }
      if !Charged(o) { return Failure(InvalidTransition); }
      var at := FindEntry(entries, o.user, id);
      orders := orders[id := o.(status := Refunded)];
      BumpEntry(at, o.total);
      notes := notes + [OrderReversed(id, at, o.total)];
      return Success(());
    }

    /** Pays into the dispute's entry, if it has one, and refunds an order that is still charged. */
    method ApplyDisputeRefund(d: Dispute, refund: int) returns (e: Option<PayrollError>)
      modifies this`orders, this`entries
      ensures e == if refund < 0 then Some(NegativeRefund)
                   else if d.order >= |old(orders)| then Some(OrderNotFound)
                   else if refund > old(orders)[d.order].total then Some(RefundExceedsOrder)
                   else if d.entry.Some? && d.entry.value >= |old(entries)| then Some(EntryNotFound)
                   else None
      ensures entries == if e.Some? then old(entries) else Bumped(old(entries), d.entry, refund)
      ensures e.Some? ==> orders == old(orders)
      ensures e.None? ==> orders == if Charged(old(orders)[d.order]) then old(orders)[d.order := old(orders)[d.order].(status := Refunded)] else old(orders)
    {
      if refund < 0 { return Some(NegativeRefund); }
      if d.order >= |orders| { return Some(OrderNotFound); }
      if refund > orders[d.order].total { return Some(RefundExceedsOrder); }
      if d.entry.Some? && d.entry.value >= |entries| { return Some(EntryNotFound); }
      BumpEntry(d.entry, refund);
      if Charged(orders[d.order]) { orders := orders[d.order := orders[d.order].(status := Refunded)]; }
      return None;
    }

    /** Any failing check rolls the whole resolution back. */
    method ResolveTx(dispute: nat, status: DisputeStatus, refund: int) returns (r: Result<(), PayrollError>)
      modifies this
      ensures match PayrollLedger.ResolveDispute(old(State()), dispute, status, refund)
              case Failure(e) => r == Failure(e) && State() == old(State())
              case Success(l) => r == Success(()) && State() == l
    {
      if status == Open { return Failure(InvalidResolution); }
      if dispute >= |disputes| { return Failure(DisputeNotFound); }
      var d := disputes[dispute];
      if d.status != Open { return Failure(InvalidTransition); }
      if status == ResolvedRefund {
        var e := ApplyDisputeRefund(d, refund);
        if e.Some? { return Failure(e.value); }
      }
      disputes := disputes[dispute := d.(status := status, refund := refund)];
      notes := notes + [DisputeResolved(dispute, d.order, status, refund)];
      return Success(());
    }

    /** A dispute leaves the open status once; a refund goes to its order and the entry that lists it. */
    method ResolveDispute(dispute: nat, status: DisputeStatus, refund: int) returns (r: Result<(), PayrollError>)
      modifies this
      ensures State() == Perform(old(State()), Resolve(dispute, status, refund))
      ensures r.Success? == Attempt(old(State()), Resolve(dispute, status, refund)).Success?
      ensures old(Valid()) ==> Valid()
      ensures r.Success? ==> dispute < |disputes| && old(disputes)[dispute].status == Open && disputes[dispute].status == status != Open
      ensures old(Valid()) && r.Success? ==> Resolved(old(State()), State(), dispute, status, refund)
      ensures r.Failure? ==> State() == old(State())
      ensures old(Valid()) && r.Failure? ==>
                r.error == if status == Open then InvalidResolution else if dispute >= |old(disputes)| then DisputeNotFound
                           else if old(disputes)[dispute].status != Open then InvalidTransition
                           else if refund < 0 then NegativeRefund else RefundExceedsOrder
    {
      if old(Valid()) {
        CallKeeps(State(), Resolve(dispute, status, refund));
        ResolveEffect(State(), dispute, status, refund);
        if PayrollLedger.ResolveDispute(State(), dispute, status, refund).Failure? { ResolveRefused(State(), dispute, status, refund); }
      }
      r := ResolveTx(dispute, status, refund);
    }

    /** One more open dispute about a settled order of the opener: the one that disputing by order would open. */
    method OpenDispute(entry: nat, order: nat, opener: nat) returns (r: Result<nat, PayrollError>)
      modifies this
      ensures State() == Perform(old(State()), OpenByEntry(entry, order, opener))
      ensures r.Success? == Attempt(old(State()), OpenByEntry(entry, order, opener)).Success?
      ensures r.Success? ==> r.value == |old(disputes)| && |disputes| == |old(disputes)| + 1 && disputes[r.value].status == Open
      ensures old(Valid()) ==> Valid()
      ensures old(Valid()) && r.Success? ==>
                && order < |orders| && orders[order].user == opener && Settled(orders[order])
                && State() == Perform(old(State()), OpenByOrder(order, opener))
      ensures r.Failure? ==> State() == old(State())
      ensures r.Failure? ==>
                r.error == if entry >= |old(entries)| then EntryNotFound else if old(entries)[entry].user != opener then Forbidden else NotInEntry
    {
      if old(Valid()) {
        CallKeeps(State(), OpenByEntry(entry, order, opener));
        if PayrollLedger.OpenDispute(State(), entry, order, opener).Success? { ByEntryEffect(State(), entry, order, opener); }
      }
      if entry >= |entries| { return Failure(EntryNotFound); }
      if entries[entry].user != opener { return Failure(Forbidden); }
      if order !in entries[entry].orderIds { return Failure(NotInEntry); }
      var id := |disputes|;
      disputes := disputes + [Dispute(Some(entry), order, opener, Open, 0)];
      return Success(id);
    }

    /** Exactly the opener's own orders that are charged or in an entry; the dispute names the entry that lists the order. */
    method OpenDisputeByOrder(order: nat, opener: nat) returns (r: Result<nat, PayrollError>)
      modifies this
      ensures State() == Perform(old(State()), OpenByOrder(order, opener))
      ensures r.Success? ==> r.value == |old(disputes)| && |disputes| == |old(disputes)| + 1
      ensures old(Valid()) ==> Valid()
      ensures old(Valid()) ==>
                (r.Success? <==> order < |orders| && orders[order].user == opener && (Charged(orders[order]) || Listed(old(State()), order)))
      ensures old(Valid()) && r.Success? ==>
                forall i: nat :: disputes[r.value].entry == Some(i) <==> i < |entries| && order in entries[i].orderIds
      ensures r.Failure? ==> State() == old(State())
      ensures old(Valid()) && r.Failure? ==>
                r.error == if order >= |orders| then OrderNotFound else if orders[order].user != opener then Forbidden else NotDisputable
    {
      if old(Valid()) {
        CallKeeps(State(), OpenByOrder(order, opener));
        ByOrderEffect(State(), order, opener);
      }
      var at := FindEntry(entries, opener, order);
      if at.None? {
        if order >= |orders| { return Failure(OrderNotFound); }
        if orders[order].user != opener { return Failure(Forbidden); }
        if !Charged(orders[order]) { return Failure(NotDisputable); }
      } else {
        FindEntryFinds(entries, opener, order);
      }
      var id := |disputes|;
      disputes := disputes + [Dispute(at, order, opener, Open, 0)];
      return Success(id);
    }
  }
}
