/** Meal complaints over the payroll tables: the escalation gate, and compensation through the order reversal. */
module Complaints {
  import opened Wrappers
  import opened OrderTypes
  import opened PayrollLedger
  import opened Refunds

  const ESCALATE_GATE := 24 * 3600
  const MIN_DESCRIPTION := 5
  const MAX_DESCRIPTION := 1000
  const MIN_RESPONSE := 5

  /** A text after trimming, as its number of bytes. */
  type Text = nat

  predicate ValidCategory(category: string) {
    category in {"wrong_item", "missing_item", "quality", "portion", "hygiene", "other"}
  }

  datatype ComplaintStatus = Filed | VendorResponded | Escalated | Resolved

  datatype Complaint = Complaint(order: nat, user: nat, vendor: nat, status: ComplaintStatus, createdAt: int,
                                 escalatedAt: Option<int>, compensated: bool)

  datatype FeedbackError = ComplaintNotFound | Invalid | UnknownOrder | NotYours | WrongState | NotPickedUp | AlreadyOpen | TooEarly | NotReversed

  datatype Desk = Desk(ledger: Ledger, complaints: seq<Complaint>)

  /** An unresolved complaint about the order: the partial unique index. */
  predicate HasOpen(cs: seq<Complaint>, order: nat) {
    exists i | 0 <= i < |cs| :: cs[i].order == order && cs[i].status != Resolved
  }

  function FileComplaint(d: Desk, order: nat, user: nat, category: string, description: Text, now: int): Result<Desk, FeedbackError> {
    if !ValidCategory(category) then Failure(Invalid)
    else if description < MIN_DESCRIPTION || description > MAX_DESCRIPTION then Failure(Invalid)
    else if order >= |d.ledger.orders| then Failure(UnknownOrder)
    else if d.ledger.orders[order].user != user then Failure(NotYours)
    else if d.ledger.orders[order].status != PickedUp then Failure(NotPickedUp)
    else if HasOpen(d.complaints, order) then Failure(AlreadyOpen)
    else Success(d.(complaints := d.complaints + [Complaint(order, user, d.ledger.orders[order].vendor, Filed, now, None, false)]))
  }

  function Respond(d: Desk, c: nat, vendor: nat, response: Text): Result<Desk, FeedbackError> {
    if c >= |d.complaints| then Failure(ComplaintNotFound)
    else if d.complaints[c].vendor != vendor then Failure(NotYours)
    else if d.complaints[c].status != Filed then Failure(WrongState)
    else if response < MIN_RESPONSE then Failure(Invalid)
    else Success(d.(complaints := d.complaints[c := d.complaints[c].(status := VendorResponded)]))
  }

  function Escalate(d: Desk, c: nat, user: nat, now: int): Result<Desk, FeedbackError> {
    if c >= |d.complaints| then Failure(ComplaintNotFound)
    else if d.complaints[c].user != user then Failure(NotYours)
    else if d.complaints[c].status !in {Filed, VendorResponded} then Failure(WrongState)
    else if now < d.complaints[c].createdAt + ESCALATE_GATE then Failure(TooEarly)
    else Success(d.(complaints := d.complaints[c := d.complaints[c].(status := Escalated, escalatedAt := Some(now))]))
  }

  function EmployeeResolve(d: Desk, c: nat, user: nat): Result<Desk, FeedbackError> {
    if c >= |d.complaints| then Failure(ComplaintNotFound)
    else if d.complaints[c].user != user then Failure(NotYours)
    else if d.complaints[c].status !in {Filed, VendorResponded} then Failure(WrongState)
    else Success(d.(complaints := d.complaints[c := d.complaints[c].(status := Resolved)]))
  }

  /** The complaint is closed first and the order reversed afterwards: a failing reversal leaves it closed. */
  function AdminResolve(d: Desk, c: nat, resolution: Text, compensate: bool): (Desk, Result<(), FeedbackError>) {
    if c >= |d.complaints| then (d, Failure(ComplaintNotFound))
    else if d.complaints[c].status != Escalated then (d, Failure(WrongState))
    else if resolution < MIN_RESPONSE then (d, Failure(Invalid))
    else
      var closed := d.(complaints := d.complaints[c := d.complaints[c].(status := Resolved, compensated := compensate)]);
      if !compensate then (closed, Success(()))
      else
        match ReverseOrder(d.ledger, d.complaints[c].order)
        case Failure(_) => (closed, Failure(NotReversed))
        case Success(l) => (closed.(ledger := l), Success(()))
  }

  datatype Call =
    | File(order: nat, user: nat, category: string, description: Text, now: int)
    | Answer(c: nat, vendor: nat, response: Text)
    | Raise(c: nat, user: nat, now: int)
    | Satisfied(c: nat, user: nat)
    | Decide(c: nat, resolution: Text, compensate: bool)
    | Payroll(step: Step)

  function Next(d: Desk, call: Call): Desk {
    match call
    case File(order, user, category, description, now) => (match FileComplaint(d, order, user, category, description, now) case Success(d') => d' case Failure(_) => d)
    case Answer(c, vendor, response) => (match Respond(d, c, vendor, response) case Success(d') => d' case Failure(_) => d)
    case Raise(c, user, now) => (match Escalate(d, c, user, now) case Success(d') => d' case Failure(_) => d)
    case Satisfied(c, user) => (match EmployeeResolve(d, c, user) case Success(d') => d' case Failure(_) => d)
    case Decide(c, resolution, compensate) => AdminResolve(d, c, resolution, compensate).0
    case Payroll(step) => d.(ledger := PayrollLedger.Perform(d.ledger, step))
  }

  function RunDesk(d: Desk, calls: seq<Call>): Desk
    decreases |calls|
  {
    if calls == [] then d else RunDesk(Next(d, calls[0]), calls[1..])
  }

  /** A complaint is about an order that was picked up, escalation waited a day, and a compensated order is refunded. */
  ghost predicate ComplaintOk(l: Ledger, c: Complaint) {
    && c.order < |l.orders| && l.orders[c.order].user == c.user && Settled(l.orders[c.order])
    && (c.status == Escalated ==> c.escalatedAt.Some?)
    && (c.escalatedAt.Some? ==> c.escalatedAt.value >= c.createdAt + ESCALATE_GATE)
    && (c.compensated ==> c.status == Resolved && c.escalatedAt.Some? && l.orders[c.order].status == Refunded)
  }

  ghost predicate DeskOk(d: Desk) {
    && Sound(d.ledger) && RecordsMatch(d.ledger)
    && (forall i | 0 <= i < |d.complaints| :: ComplaintOk(d.ledger, d.complaints[i]))
    && (forall i, j | 0 <= i < j < |d.complaints| && d.complaints[i].order == d.complaints[j].order ::
          d.complaints[i].status == Resolved || d.complaints[j].status == Resolved)
  }

  ghost predicate LegalCall(d: Desk, call: Call) {
    call.Payroll? ==> Legal(d.ledger, call.step)
  }

  /** Settled orders stay with their user, and refunded ones stay refunded. */
  lemma SettledForGood(l: Ledger, s: Step, id: nat)
    requires Sound(l) && Legal(l, s) && id < |l.orders| && Settled(l.orders[id])
    ensures var l' := PayrollLedger.Perform(l, s);
            id < |l'.orders| && Settled(l'.orders[id]) && l'.orders[id].user == l.orders[id].user
            && (l.orders[id].status == Refunded ==> l'.orders[id].status == Refunded)
  {
  }

  lemma ReverseIsStep(l: Ledger, id: nat)
    requires Sound(l) && RecordsMatch(l)
    ensures Sound(PayrollLedger.Perform(l, Reverse(id))) && RecordsMatch(PayrollLedger.Perform(l, Reverse(id)))
    ensures id < |l.orders| && Settled(l.orders[id]) ==>
              ReverseOrder(l, id).Success? && ReverseOrder(l, id).value.orders[id].status == Refunded
  {
    StepSound(l, Reverse(id));
    StepKeepsRecords(l, Reverse(id));
  }

  lemma ComplaintsStay(d: Desk, l: Ledger)
    requires DeskOk(d) && Sound(l) && RecordsMatch(l)
    requires forall id: nat | id < |d.ledger.orders| && Settled(d.ledger.orders[id]) ::
               id < |l.orders| && Settled(l.orders[id]) && l.orders[id].user == d.ledger.orders[id].user
               && (d.ledger.orders[id].status == Refunded ==> l.orders[id].status == Refunded)
    ensures DeskOk(d.(ledger := l))
  {
    forall i | 0 <= i < |d.complaints| ensures ComplaintOk(l, d.complaints[i]) {
      assert ComplaintOk(d.ledger, d.complaints[i]);
      assert Settled(d.ledger.orders[d.complaints[i].order]);
    }
  }

  lemma PayrollKeepsDesk(d: Desk, s: Step)
    requires DeskOk(d) && Legal(d.ledger, s)
    ensures DeskOk(d.(ledger := PayrollLedger.Perform(d.ledger, s)))
  {
    StepSound(d.ledger, s);
    StepKeepsRecords(d.ledger, s);
    forall id: nat | id < |d.ledger.orders| && Settled(d.ledger.orders[id])
      ensures var l := PayrollLedger.Perform(d.ledger, s);
              id < |l.orders| && Settled(l.orders[id]) && l.orders[id].user == d.ledger.orders[id].user
              && (d.ledger.orders[id].status == Refunded ==> l.orders[id].status == Refunded)
    {
      SettledForGood(d.ledger, s, id);
    }
    ComplaintsStay(d, PayrollLedger.Perform(d.ledger, s));
  }

  /** A compensated decision on an escalated complaint never fails: it closes the complaint and refunds the order. */
  lemma CompensationSucceeds(d: Desk, c: nat, resolution: Text)
    requires resolution >= MIN_RESPONSE
    requires DeskOk(d) && c < |d.complaints| && d.complaints[c].status == Escalated
    ensures var (d', r) := AdminResolve(d, c, resolution, true);
            && r == Success(()) && DeskOk(d')
            && d'.ledger == PayrollLedger.Perform(d.ledger, Reverse(d.complaints[c].order))
            && d'.ledger.orders[d.complaints[c].order].status == Refunded
            && d'.complaints == d.complaints[c := d.complaints[c].(status := Resolved, compensated := true)]
  {
    var id := d.complaints[c].order;
    assert ComplaintOk(d.ledger, d.complaints[c]);
    ReverseIsStep(d.ledger, id);
    PayrollKeepsDesk(d, Reverse(id));
    var moved := d.(ledger := PayrollLedger.Perform(d.ledger, Reverse(id)));
    assert ComplaintOk(moved.ledger, moved.complaints[c]);
  }

  /** A complaint that stays about its order and, once resolved, resolved. */
  lemma OneComplaintChanges(d: Desk, c: nat, to: Complaint)
    requires DeskOk(d) && c < |d.complaints| && ComplaintOk(d.ledger, to)
    requires to.order == d.complaints[c].order && (d.complaints[c].status == Resolved ==> to.status == Resolved)
    ensures DeskOk(d.(complaints := d.complaints[c := to]))
  {
  }

  lemma NewComplaint(d: Desk, to: Complaint)
    requires DeskOk(d) && ComplaintOk(d.ledger, to) && !HasOpen(d.complaints, to.order)
    ensures DeskOk(d.(complaints := d.complaints + [to]))
  {
  }

  lemma CallKeepsDesk(d: Desk, call: Call)
    requires DeskOk(d) && LegalCall(d, call)
    ensures DeskOk(Next(d, call))
  {
    match call
    case Payroll(step) => PayrollKeepsDesk(d, step);
    case Decide(c, resolution, compensate) =>
      if c < |d.complaints| && d.complaints[c].status == Escalated && resolution >= MIN_RESPONSE {
        if compensate {
          CompensationSucceeds(d, c, resolution);
        } else {
          assert ComplaintOk(d.ledger, d.complaints[c]);
          OneComplaintChanges(d, c, d.complaints[c].(status := Resolved, compensated := false));
        }
      }
    case Raise(c, user, now) =>
      if Escalate(d, c, user, now).Success? {
        assert ComplaintOk(d.ledger, d.complaints[c]);
        OneComplaintChanges(d, c, d.complaints[c].(status := Escalated, escalatedAt := Some(now)));
      }
    case Answer(c, vendor, response) =>
      if Respond(d, c, vendor, response).Success? {
        assert ComplaintOk(d.ledger, d.complaints[c]);
        OneComplaintChanges(d, c, d.complaints[c].(status := VendorResponded));
      }
    case Satisfied(c, user) =>
      if EmployeeResolve(d, c, user).Success? {
        assert ComplaintOk(d.ledger, d.complaints[c]);
        OneComplaintChanges(d, c, d.complaints[c].(status := Resolved));
      }
    case File(order, user, category, description, now) =>
      if FileComplaint(d, order, user, category, description, now).Success? {
        NewComplaint(d, Complaint(order, user, d.ledger.orders[order].vendor, Filed, now, None, false));
      }
  }

  ghost predicate LegalCalls(d: Desk, calls: seq<Call>)
    decreases |calls|
  {
    calls != [] ==> LegalCall(d, calls[0]) && LegalCalls(Next(d, calls[0]), calls[1..])
  }

  /**
   * Over any run of complaint and payroll calls: at most one unresolved complaint per order, escalations at least a day
   * old, compensated orders refunded, and the payroll entries still match the refunds recorded.
   */
  lemma {:induction false} EveryDeskRun(d: Desk, calls: seq<Call>)
    requires DeskOk(d) && LegalCalls(d, calls)
    ensures DeskOk(RunDesk(d, calls))
    decreases |calls|
  {
    if calls != [] {
      CallKeepsDesk(d, calls[0]);
      EveryDeskRun(Next(d, calls[0]), calls[1..]);
    }
  }

  /** No dispute is resolved with a refund: the only refunds are reversals, direct or through a decision. */
  ghost predicate OnlyReversals(calls: seq<Call>) {
    forall k | 0 <= k < |calls| :: !(calls[k].Payroll? && calls[k].step.Resolve? && calls[k].step.status == ResolvedRefund)
  }

  /** What a call does to the payroll tables: nothing, its step, or the reversal of the complaint's order. */
  lemma CallOnLedger(d: Desk, call: Call)
    ensures var l := Next(d, call).ledger;
            || l == d.ledger
            || (call.Payroll? && l == PayrollLedger.Perform(d.ledger, call.step))
            || (call.Decide? && call.c < |d.complaints| && l == PayrollLedger.Perform(d.ledger, Reverse(d.complaints[call.c].order)))
  {
  }

  /**
   * Repeated, in any order, directly or through compensated decisions: RefundedMinor of every entry stays the totals of
   * its refunded orders and within its amount.
   */
  lemma {:induction false} CompensationsKeepBook(d: Desk, calls: seq<Call>)
    requires DeskOk(d) && BookMatches(d.ledger) && LegalCalls(d, calls) && OnlyReversals(calls)
    ensures var l := RunDesk(d, calls).ledger;
            BookMatches(l) && forall i: nat | i < |l.entries| :: 0 <= l.entries[i].refunded <= l.entries[i].amount
    decreases |calls|
  {
    if calls == [] {
      ReversalsKeepBook(d.ledger, []);
    } else {
      var call := calls[0];
      CallKeepsDesk(d, call);
      CallOnLedger(d, call);
      if call.Payroll? { StepKeepsBook(d.ledger, call.step); }
      if call.Decide? && call.c < |d.complaints| { StepKeepsBook(d.ledger, Reverse(d.complaints[call.c].order)); }
      CompensationsKeepBook(Next(d, call), calls[1..]);
    }
  }
}
