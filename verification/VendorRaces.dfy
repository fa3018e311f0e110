/**
 * The vendor service reads, calls the provider and then updates, without a transaction: the updates of concurrent calls
 * mix. Here is exactly which updates keep active operators under approved vendors.
 */
module VendorRaces {
  import opened Wrappers
  import opened Vendors

  /** The updates that the calls send one by one, whatever they have read before. */
  datatype Update =
    | NewVendor(v: nat)
    | MarkVendor(v: nat, status: VendorStatus)
    | MoveOperators(v: nat, from: OperatorStatus, to: OperatorStatus)
    | Upsert(v: nat, email: string, subject: bool)
    | SetOperator(op: nat, to: OperatorStatus)

  /** An update of a missing row changes nothing. */
  function Apply(s: State, u: Update): State {
    match u
    case NewVendor(v) => if v in s.vendors then s else s.(vendors := s.vendors[v := Pending])
    case MarkVendor(v, status) => if v in s.vendors then s.(vendors := s.vendors[v := status]) else s
    case MoveOperators(v, from, to) => s.(operators := SetStatuses(s.operators, v, from, to))
    case Upsert(v, email, subject) => if v in s.vendors then s.(operators := Upserted(s.operators, v, Normal(email), subject)) else s
    case SetOperator(op, status) => if op < |s.operators| then s.(operators := s.operators[op := s.operators[op].(status := status)]) else s
  }

  function ApplyAll(s: State, us: seq<Update>): State
    decreases |us|
  {
    if us == [] then s else ApplyAll(Apply(s, us[0]), us[1..])
  }

  predicate IsApproved(s: State, v: nat) {
    v in s.vendors && s.vendors[v] == Approved
  }

  ghost predicate HasOperator(s: State, v: nat, status: OperatorStatus) {
    exists i :: 0 <= i < |s.operators| && s.operators[i].vendor == v && s.operators[i].status == status
  }

  /** What the tables must say when the update arrives. */
  ghost predicate InTime(s: State, u: Update) {
    match u
    case NewVendor(v) => true
    case MarkVendor(v, status) => status == Approved || v !in s.vendors || !HasOperator(s, v, Active)
    case MoveOperators(v, from, to) => to != Active || !HasOperator(s, v, from) || IsApproved(s, v)
    case Upsert(v, email, subject) => v !in s.vendors || IsApproved(s, v)
    case SetOperator(op, status) => status != Active || op >= |s.operators| || IsApproved(s, s.operators[op].vendor)
  }

  lemma UpsertExactly(s: State, v: nat, email: string, subject: bool)
    requires Safe(s) && v in s.vendors
    ensures Safe(Apply(s, Upsert(v, email, subject))) <==> IsApproved(s, v)
  {
    NormalIdempotent(email);
    FindOperatorFinds(s.operators, v, Normal(email));
    UpsertOnly(s.operators, v, Normal(email), subject);
  }

  lemma MoveExactly(s: State, v: nat, from: OperatorStatus, to: OperatorStatus)
    requires Safe(s)
    ensures Safe(Apply(s, MoveOperators(v, from, to))) <==> InTime(s, MoveOperators(v, from, to))
  {
    var s' := Apply(s, MoveOperators(v, from, to));
    if to == Active && HasOperator(s, v, from) {
      var i :| 0 <= i < |s.operators| && s.operators[i].vendor == v && s.operators[i].status == from;
      assert s'.operators[i].status == Active && s'.operators[i].vendor == v;
    }
  }

  /** From a safe state, an update ends in a safe state exactly when it arrives in time. */
  lemma UpdateExactly(s: State, u: Update)
    requires Safe(s)
    ensures Safe(Apply(s, u)) <==> InTime(s, u)
  {
    match u
    case Upsert(v, email, subject) => if v in s.vendors { UpsertExactly(s, v, email, subject); }
    case MoveOperators(v, from, to) => MoveExactly(s, v, from, to);
    case SetOperator(op, status) =>
      if op < |s.operators| { assert Apply(s, u).operators[op].vendor == s.operators[op].vendor; }
    case _ =>
  }

  // ---------------------------------------------------------------- whole runs of updates

  ghost predicate AlwaysSafe(s: State, us: seq<Update>)
    decreases |us|
  {
    Safe(s) && (us != [] ==> AlwaysSafe(Apply(s, us[0]), us[1..]))
  }

  ghost predicate AllInTime(s: State, us: seq<Update>)
    decreases |us|
  {
    us != [] ==> InTime(s, us[0]) && AllInTime(Apply(s, us[0]), us[1..])
  }

  /** Over every interleaving of the updates of any callers: safe throughout exactly when each update arrives in time. */
  lemma {:induction false} InterleavedUpdatesExactly(s: State, us: seq<Update>)
    requires Safe(s)
    ensures AlwaysSafe(s, us) <==> AllInTime(s, us)
    decreases |us|
  {
    if us != [] {
      UpdateExactly(s, us[0]);
      if Safe(Apply(s, us[0])) { InterleavedUpdatesExactly(Apply(s, us[0]), us[1..]); }
    }
  }

  // ---------------------------------------------------------------- the calls as updates

  /** The calls of one caller at a time are these updates; between the two of a suspension the state need not be safe. */
  lemma CallsAreUpdates(s: State, v: nat)
    ensures Suspend(s, v).Success? ==> ApplyAll(s, [MarkVendor(v, Suspended), MoveOperators(v, Active, VendorSuspended)]) == Suspend(s, v).value
    ensures Reinstate(s, v).Success? ==> ApplyAll(s, [MarkVendor(v, Approved), MoveOperators(v, VendorSuspended, Active)]) == Reinstate(s, v).value
    ensures Safe(s) && Suspend(s, v).Success? ==> (Safe(Apply(s, MarkVendor(v, Suspended))) <==> !HasOperator(s, v, Active))
  {
    var a, b := [MarkVendor(v, Suspended), MoveOperators(v, Active, VendorSuspended)], [MarkVendor(v, Approved), MoveOperators(v, VendorSuspended, Active)];
    assert a[1..][1..] == [] && b[1..][1..] == [];
    assert ApplyAll(s, a) == ApplyAll(Apply(s, a[0]), a[1..]) == Apply(Apply(s, a[0]), a[1]);
    assert ApplyAll(s, b) == ApplyAll(Apply(s, b[0]), b[1..]) == Apply(Apply(s, b[0]), b[1]);
    if Safe(s) { UpdateExactly(s, MarkVendor(v, Suspended)); }
  }

  lemma AnnNormalised()
    ensures Normal(" Ann@x ") == "ann@x" && Trim("Ann") == "Ann"
  {
    assert " Ann@x "[1..] == "Ann@x ";
    assert TrimLeft(" Ann@x ") == TrimLeft("Ann@x ") == "Ann@x ";
    assert "Ann@x "[..5] == "Ann@x";
    assert TrimRight("Ann@x ") == TrimRight("Ann@x") == "Ann@x";
    assert ToLower("Ann@x") == "ann@x";
  }

  lemma ApprovalIsMark(s: State, v: nat, plants: seq<nat>)
    requires Approve(s, v, plants).Success?
    ensures Apply(s, MarkVendor(v, Approved)) == Approve(s, v, plants).value.(plants := s.plants)
  {
  }

  lemma OperatorCallsAreUpdates(s: State, v: nat, op: nat)
    ensures SuspendOperator(s, v, op).Success? ==> Apply(s, SetOperator(op, OperatorSuspended)) == SuspendOperator(s, v, op).value
    ensures ReinstateOperator(s, v, op).Success? ==> Apply(s, SetOperator(op, Active)) == ReinstateOperator(s, v, op).value
  {
  }

  lemma CreationIsUpsert(s: State, v: nat, email: string, parses: bool, displayName: string, subject: bool)
    requires CreateOperator(s, v, email, parses, displayName, subject).Success?
    ensures Apply(s, Upsert(v, email, subject)) == CreateOperator(s, v, email, parses, displayName, subject).value
  {
  }

  /** The vendor is approved when the creation reads it and suspended when the account is stored: an active operator remains. */
  lemma CreationDuringSuspension()
    ensures var approved := ApplyAll(EMPTY_STATE, [NewVendor(1), MarkVendor(1, Approved)]);
            var suspended := Suspend(approved, 1);
            && CreateOperator(approved, 1, " Ann@x ", true, "Ann", true).Success? && suspended.Success?
            && var late := Apply(suspended.value, Upsert(1, " Ann@x ", true));
               late.vendors == map[1 := Suspended] && late.operators == [Operator(1, "ann@x", Active, true)] && !Safe(late)
  {
    var us := [NewVendor(1), MarkVendor(1, Approved)];
    assert us[1..][1..] == [];
    assert ApplyAll(EMPTY_STATE, us) == ApplyAll(Apply(EMPTY_STATE, us[0]), us[1..]) == State(map[1 := Approved], [], map[]);
    var s := State(map[1 := Suspended], [], map[]);
    AnnNormalised();
    UpsertExactly(s, 1, " Ann@x ", true);
  }
}
