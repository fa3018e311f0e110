/** The feedback service over its complaint table and the payroll tables the reversal changes. */
module ComplaintService {
  import opened Wrappers
  import opened OrderTypes
  import opened PayrollLedger
  import opened Refunds
  import opened Complaints

  /** One complaint changes, and nothing else. */
  ghost predicate Only(before: Desk, after: Desk, c: nat, to: Complaint) {
    c < |before.complaints| && after == before.(complaints := before.complaints[c := to])
  }

  class Service {
    var ledger: Ledger
    var complaints: seq<Complaint>

    function Current(): Desk
      reads this
    {
      Desk(ledger, complaints)
    }

    constructor (l: Ledger)
      ensures Current() == Desk(l, [])
    {
      ledger, complaints := l, [];
    }

    /** The conditional UPDATE: it takes effect on a complaint still in the status read. */
    method Transition(c: nat, from: ComplaintStatus, to: Complaint) returns (ok: bool)
      modifies this`complaints
      ensures ok <==> c < |old(complaints)| && old(complaints)[c].status == from
      ensures complaints == if ok then old(complaints)[c := to] else old(complaints)
    {
      ok := c < |complaints| && complaints[c].status == from;
      if ok { complaints := complaints[c := to]; }
    }

    method FileComplaint(order: nat, user: nat, category: string, description: Text, now: int) returns (r: Result<(), FeedbackError>)
      modifies this
      ensures match Complaints.FileComplaint(old(Current()), order, user, category, description, now)
              case Failure(e) => r == Failure(e) && Current() == old(Current())
              case Success(d) => r == Success(()) && Current() == d
      ensures r.Success? <==>
                && category in {"wrong_item", "missing_item", "quality", "portion", "hygiene", "other"} && 5 <= description <= 1000
                && order < |old(ledger).orders| && old(ledger).orders[order].user == user && old(ledger).orders[order].status == PickedUp
                && forall i | 0 <= i < |old(complaints)| :: old(complaints)[i].order != order || old(complaints)[i].status == Resolved
      ensures r.Success? ==>
                && ledger == old(ledger) && order < |ledger.orders|
                && complaints == old(complaints) + [Complaint(order, user, ledger.orders[order].vendor, Filed, now, None, false)]
      ensures r.Failure? ==> Current() == old(Current())
      ensures r.Failure? ==>
                r.error == if !(category in {"wrong_item", "missing_item", "quality", "portion", "hygiene", "other"} && 5 <= description <= 1000) then Invalid
                           else if order >= |old(ledger).orders| then UnknownOrder
                           else if old(ledger).orders[order].user != user then NotYours
                           else if old(ledger).orders[order].status != PickedUp then NotPickedUp
                           else AlreadyOpen
      ensures DeskOk(old(Current())) ==> DeskOk(Current())
    {
      if DeskOk(Current()) { CallKeepsDesk(Current(), File(order, user, category, description, now)); }
      if !ValidCategory(category) || description < MIN_DESCRIPTION || description > MAX_DESCRIPTION { return Failure(Invalid); }
      if order >= |ledger.orders| { return Failure(UnknownOrder); }
      var o := ledger.orders[order];
      if o.user != user { return Failure(NotYours); }
      if o.status != PickedUp { return Failure(NotPickedUp); }
      var i := 0;
      while i < |complaints|
        invariant 0 <= i <= |complaints|
        invariant forall k | 0 <= k < i :: complaints[k].order != order || complaints[k].status == Resolved
      {
        if complaints[i].order == order && complaints[i].status != Resolved { return Failure(AlreadyOpen); }
        i := i + 1;
      }
      complaints := complaints + [Complaint(order, user, o.vendor, Filed, now, None, false)];
      return Success(());
    }

    /** An open complaint is answered once, by its own vendor. */
    method Respond(c: nat, vendor: nat, response: Text) returns (r: Result<(), FeedbackError>)
      modifies this
      ensures Current() == Next(old(Current()), Answer(c, vendor, response)) && (r.Failure? ==> Current() == old(Current()))
      ensures r.Success? <==>
                c < |old(complaints)| && old(complaints)[c].vendor == vendor && old(complaints)[c].status == Filed && response >= MIN_RESPONSE
      ensures r.Success? ==> Only(old(Current()), Current(), c, old(complaints)[c].(status := VendorResponded))
      ensures r.Failure? ==>
                r.error == if c >= |old(complaints)| then ComplaintNotFound else if old(complaints)[c].vendor != vendor then NotYours
                           else if old(complaints)[c].status != Filed then WrongState else Invalid
      ensures DeskOk(old(Current())) ==> DeskOk(Current())
    {
      if DeskOk(Current()) { CallKeepsDesk(Current(), Answer(c, vendor, response)); }
      if c >= |complaints| { return Failure(ComplaintNotFound); }
      var row := complaints[c];
      if row.vendor != vendor { return Failure(NotYours); }
      if row.status != Filed { return Failure(WrongState); }
      if response < MIN_RESPONSE { return Failure(Invalid); }
      var ok := Transition(c, Filed, row.(status := VendorResponded));
      return Success(());
    }

    /** The owner may escalate an unresolved complaint from a day after filing on. */
    method Escalate(c: nat, user: nat, now: int) returns (r: Result<(), FeedbackError>)
      modifies this
      ensures Current() == Next(old(Current()), Raise(c, user, now)) && (r.Failure? ==> Current() == old(Current()))
      ensures r.Success? <==>
                && c < |old(complaints)| && old(complaints)[c].user == user
                && old(complaints)[c].status !in {Escalated, Resolved} && now - old(complaints)[c].createdAt >= 24 * 3600
      ensures r.Success? ==> Only(old(Current()), Current(), c, old(complaints)[c].(status := Escalated, escalatedAt := Some(now)))
      ensures r.Failure? ==>
                r.error == if c >= |old(complaints)| then ComplaintNotFound else if old(complaints)[c].user != user then NotYours
                           else if old(complaints)[c].status in {Escalated, Resolved} then WrongState else TooEarly
      ensures DeskOk(old(Current())) ==> DeskOk(Current())
    {
      if DeskOk(Current()) { CallKeepsDesk(Current(), Raise(c, user, now)); }
      if c >= |complaints| { return Failure(ComplaintNotFound); }
      var row := complaints[c];
      if row.user != user { return Failure(NotYours); }
      if row.status != Filed && row.status != VendorResponded { return Failure(WrongState); }
      if now < row.createdAt + ESCALATE_GATE { return Failure(TooEarly); }
      var ok := Transition(c, row.status, row.(status := Escalated, escalatedAt := Some(now)));
      return Success(());
    }

    /** The owner may close a complaint that is neither escalated nor closed; the order can then be complained about again. */
    method EmployeeResolve(c: nat, user: nat) returns (r: Result<(), FeedbackError>)
      modifies this
      ensures Current() == Next(old(Current()), Satisfied(c, user)) && (r.Failure? ==> Current() == old(Current()))
      ensures r.Success? <==>
                c < |old(complaints)| && old(complaints)[c].user == user && old(complaints)[c].status !in {Escalated, Resolved}
      ensures r.Success? ==> Only(old(Current()), Current(), c, old(complaints)[c].(status := Resolved))
      ensures r.Failure? ==>
                r.error == if c >= |old(complaints)| then ComplaintNotFound else if old(complaints)[c].user != user then NotYours else WrongState
      ensures DeskOk(old(Current())) ==> DeskOk(Current()) && (r.Success? ==> !HasOpen(complaints, complaints[c].order))
    {
      if DeskOk(Current()) { CallKeepsDesk(Current(), Satisfied(c, user)); }
      if c >= |complaints| { return Failure(ComplaintNotFound); }
      var row := complaints[c];
      if row.user != user { return Failure(NotYours); }
      if row.status != Filed && row.status != VendorResponded { return Failure(WrongState); }
      var ok := Transition(c, row.status, row.(status := Resolved));
      return Success(());
    }

    /**
     * Two transactions, one after the other. From sound tables the second never fails: the call succeeds exactly for an
     * escalated complaint with a resolution text, closes it, and on compensation leaves its order refunded.
     */
    method AdminResolve(c: nat, resolution: Text, compensate: bool) returns (r: Result<(), FeedbackError>)
      modifies this
      ensures (Current(), r) == Complaints.AdminResolve(old(Current()), c, resolution, compensate)
      ensures DeskOk(old(Current())) ==>
                && DeskOk(Current())
                && (r.Success? <==> c < |old(complaints)| && old(complaints)[c].status == Escalated && resolution >= MIN_RESPONSE)
                && (r.Failure? ==> Current() == old(Current()))
      ensures DeskOk(old(Current())) && r.Success? ==>
                && complaints == old(complaints)[c := old(complaints)[c].(status := Resolved, compensated := compensate)]
                && ledger == if compensate then PayrollLedger.Perform(old(ledger), Reverse(old(complaints)[c].order)) else old(ledger)
      ensures DeskOk(old(Current())) && r.Success? && compensate ==>
                var id := old(complaints)[c].order; id < |ledger.orders| && ledger.orders[id].status == Refunded
    {
      if DeskOk(Current()) {
        CallKeepsDesk(Current(), Decide(c, resolution, compensate));
        if c < |complaints| && complaints[c].status == Escalated && resolution >= MIN_RESPONSE { CompensationSucceeds(Current(), c, resolution); }
      }
      if c >= |complaints| { return Failure(ComplaintNotFound); }
      var row := complaints[c];
      if row.status != Escalated { return Failure(WrongState); }
      if resolution < MIN_RESPONSE { return Failure(Invalid); }
      var ok := Transition(c, Escalated, row.(status := Resolved, compensated := compensate));
      if !compensate { return Success(()); }
      match ReverseOrder(ledger, row.order) {
        case Failure(_) => return Failure(NotReversed);
        case Success(l) =>
          ledger := l;
          return Success(());
      }
    }
  }
}
