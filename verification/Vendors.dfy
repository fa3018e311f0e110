/** Vendors and their operator accounts: approval, suspension and reinstatement. */
module Vendors {
  import opened Wrappers

  datatype VendorStatus = Pending | Approved | Suspended | Terminated

  datatype OperatorStatus = Active | OperatorSuspended | VendorSuspended

  /** subject: the account exists at the identity provider, without which its calls fail. */
  datatype Operator = Operator(vendor: nat, email: string, status: OperatorStatus, subject: bool)

  datatype State = State(vendors: map<nat, VendorStatus>, operators: seq<Operator>, plants: map<nat, seq<nat>>)

  datatype VendorError = VendorNotFound | OperatorNotFound | AlreadyApproved | InvalidStatus | InvalidOperator

  const EMPTY_STATE: State := State(map[], [], map[])

  /** UPDATE ... SET status = to WHERE vendor_id = v AND status = from. */
  function SetStatuses(ops: seq<Operator>, v: nat, from: OperatorStatus, to: OperatorStatus): seq<Operator> {
    seq(|ops|, i requires 0 <= i < |ops| => if ops[i].vendor == v && ops[i].status == from then ops[i].(status := to) else ops[i])
  }

  /** The remote calls succeed for every operator of the vendor with the status. */
  predicate AllProvisioned(ops: seq<Operator>, v: nat, status: OperatorStatus) {
    forall i | 0 <= i < |ops| && ops[i].vendor == v && ops[i].status == status :: ops[i].subject
  }

  function Approve(s: State, v: nat, plants: seq<nat>): Result<State, VendorError> {
    if v !in s.vendors then Failure(VendorNotFound)
    else if s.vendors[v] == Approved then Failure(AlreadyApproved)
    else if s.vendors[v] !in {Pending, Suspended} then Failure(InvalidStatus)
    else Success(s.(vendors := s.vendors[v := Approved], plants := s.plants[v := plants]))
  }

  function Suspend(s: State, v: nat): Result<State, VendorError> {
    if v !in s.vendors then Failure(VendorNotFound)
    else if s.vendors[v] != Approved then Failure(InvalidStatus)
    else if !AllProvisioned(s.operators, v, Active) then Failure(InvalidOperator)
    else Success(s.(vendors := s.vendors[v := Suspended], operators := SetStatuses(s.operators, v, Active, VendorSuspended)))
  }

  function Reinstate(s: State, v: nat): Result<State, VendorError> {
    if v !in s.vendors then Failure(VendorNotFound)
    else if s.vendors[v] != Suspended then Failure(InvalidStatus)
    else if !AllProvisioned(s.operators, v, VendorSuspended) then Failure(InvalidOperator)
    else Success(s.(vendors := s.vendors[v := Approved], operators := SetStatuses(s.operators, v, VendorSuspended, Active)))
  }

  // ---------------------------------------------------------------- emails

  predicate IsSpace(c: char) { c in {' ', '\t', '\n', '\r'} }

  function TrimLeft(s: string): string {
    if s != "" && IsSpace(s[0]) then TrimLeft(s[1..]) else s
  }

  function TrimRight(s: string): string {
    if s != "" && IsSpace(s[|s| - 1]) then TrimRight(s[..|s| - 1]) else s
  }

  function Lower(c: char): char {
    if 'A' <= c <= 'Z' then (c as int + 32) as char else c
  }

  function ToLower(s: string): string {
    seq(|s|, i requires 0 <= i < |s| => Lower(s[i]))
  }

  function Trim(s: string): string { TrimRight(TrimLeft(s)) }

  function Normal(email: string): string { ToLower(Trim(email)) }

  /** Neither end is blank. */
  predicate Trimmed(s: string) {
    s == "" || (!IsSpace(s[0]) && !IsSpace(s[|s| - 1]))
  }

  lemma {:induction false} TrimRightEnds(s: string)
    requires s == "" || !IsSpace(s[0])
    ensures Trimmed(TrimRight(s))
  {
    if s != "" && IsSpace(s[|s| - 1]) { TrimRightEnds(s[..|s| - 1]); }
  }

  lemma {:induction false} TrimLeftEnds(s: string)
    ensures TrimLeft(s) == "" || !IsSpace(TrimLeft(s)[0])
  {
    if s != "" && IsSpace(s[0]) { TrimLeftEnds(s[1..]); }
  }

  /** Normalising twice is normalising once, so a stored email finds its own account again. */
  lemma NormalIdempotent(email: string)
    ensures Normal(Normal(email)) == Normal(email)
  {
    TrimLeftEnds(email);
    TrimRightEnds(TrimLeft(email));
    var once := Normal(email);
    assert once != "" ==> once[0] == Lower(Trim(email)[0]) && once[|once| - 1] == Lower(Trim(email)[|once| - 1]);
    assert Trim(once) == once;
    assert ToLower(once) == once;
  }

  /** Blanks to the left of i and from j on, and between them the text. */
  ghost predicate TrimsTo(s: string, i: nat, j: nat, text: string) {
    && i <= j <= |s| && text == s[i..j]
    && (forall k | 0 <= k < i || j <= k < |s| :: IsSpace(s[k]))
  }

  /** Capital letters become small, every other character stays. */
  ghost predicate SameLetter(c: char, small: char) {
    if 'A' <= c <= 'Z' then small as int == c as int + 32 else small == c
  }

  lemma {:induction false} TrimLeftMeans(s: string) returns (i: nat)
    ensures i <= |s| && TrimLeft(s) == s[i..] && forall k | 0 <= k < i :: IsSpace(s[k])
  {
    if s != "" && IsSpace(s[0]) {
      var n := TrimLeftMeans(s[1..]);
      i := n + 1;
      forall k | 0 <= k < i ensures IsSpace(s[k]) {
        if k > 0 { assert s[k] == s[1..][k - 1]; }
      }
    } else {
      i := 0;
    }
  }

  lemma {:induction false} TrimRightMeans(s: string) returns (j: nat)
    ensures j <= |s| && TrimRight(s) == s[..j] && forall k | j <= k < |s| :: IsSpace(s[k])
  {
    if s != "" && IsSpace(s[|s| - 1]) {
      j := TrimRightMeans(s[..|s| - 1]);
    } else {
      j := |s|;
    }
  }

  lemma BlankEnds(s: string, i: nat, rest: string, n: nat)
    requires i <= |s| && rest == s[i..] && n <= |rest|
    requires (forall k | 0 <= k < i :: IsSpace(s[k])) && forall k | n <= k < |rest| :: IsSpace(rest[k])
    ensures TrimsTo(s, i, i + n, rest[..n])
  {
    assert forall k | i <= k < |s| :: s[k] == rest[k - i];
  }

  lemma TrimEnds(s: string)
    ensures Trimmed(Trim(s))
  {
    TrimLeftEnds(s);
    TrimRightEnds(TrimLeft(s));
  }

  /** Trimming takes the blanks off both ends and nothing else. */
  lemma TrimMeans(s: string)
    ensures Trimmed(Trim(s)) && exists i: nat, j: nat :: TrimsTo(s, i, j, Trim(s))
  {
    TrimEnds(s);
    var i := TrimLeftMeans(s);
    var n := TrimRightMeans(TrimLeft(s));
    BlankEnds(s, i, TrimLeft(s), n);
    assert TrimsTo(s, i, i + n, Trim(s));
  }

  /** The normal email is the trimmed one letter by letter in small letters, with no blank end. */
  lemma NormalMeans(email: string)
    ensures |Normal(email)| == |Trim(email)| && Trimmed(Normal(email))
    ensures forall k | 0 <= k < |Normal(email)| :: SameLetter(Trim(email)[k], Normal(email)[k])
  {
    TrimMeans(email);
  }

  // ---------------------------------------------------------------- operators

  function FindOperator(ops: seq<Operator>, v: nat, email: string): Option<nat> {
    if ops == [] then None
    else
      match FindOperator(ops[..|ops| - 1], v, email)
      case Some(i) => Some(i)
      case None => if ops[|ops| - 1].vendor == v && ops[|ops| - 1].email == email then Some(|ops| - 1) else None
  }

  /** INSERT ... ON CONFLICT (vendor_id, email) DO UPDATE: an existing account becomes active again. */
  function Upserted(ops: seq<Operator>, v: nat, email: string, subject: bool): seq<Operator> {
    match FindOperator(ops, v, email)
    case Some(i) => if i < |ops| then ops[i := ops[i].(status := Active, subject := subject)] else ops
    case None => ops + [Operator(v, email, Active, subject)]
  }

  /** parses: the address parser accepts the normalised email; subject: what the provider returned. */
  function CreateOperator(s: State, v: nat, email: string, parses: bool, displayName: string, subject: bool): Result<State, VendorError> {
    if v !in s.vendors then Failure(VendorNotFound)
    else if s.vendors[v] != Approved then Failure(InvalidStatus)
    else if Normal(email) == "" || !parses || Trim(displayName) == "" then Failure(InvalidOperator)
    else Success(s.(operators := Upserted(s.operators, v, Normal(email), subject)))
  }

  function SuspendOperator(s: State, v: nat, op: nat): Result<State, VendorError> {
    if op >= |s.operators| || s.operators[op].vendor != v then Failure(OperatorNotFound)
    else if s.operators[op].status != Active then Failure(InvalidStatus)
    else if !s.operators[op].subject then Failure(InvalidOperator)
    else Success(s.(operators := s.operators[op := s.operators[op].(status := OperatorSuspended)]))
  }

  function ReinstateOperator(s: State, v: nat, op: nat): Result<State, VendorError> {
    if v !in s.vendors then Failure(VendorNotFound)
    else if s.vendors[v] != Approved then Failure(InvalidStatus)
    else if op >= |s.operators| || s.operators[op].vendor != v then Failure(OperatorNotFound)
    else if s.operators[op].status == Active then Failure(InvalidStatus)
    else if !s.operators[op].subject then Failure(InvalidOperator)
    else Success(s.(operators := s.operators[op := s.operators[op].(status := Active)]))
  }

  datatype Call =
    | CallCreatePending(v: nat)
    | CallApprove(v: nat, plants: seq<nat>)
    | CallSuspend(v: nat)
    | CallReinstate(v: nat)
    | CallCreateOperator(v: nat, email: string, parses: bool, displayName: string, subject: bool)
    | CallSuspendOperator(v: nat, op: nat)
    | CallReinstateOperator(v: nat, op: nat)

  /** A vendor id handed out by the table is new. */
  function Perform(s: State, c: Call): Result<State, VendorError> {
    match c
    case CallCreatePending(v) => if v in s.vendors then Failure(InvalidStatus) else Success(s.(vendors := s.vendors[v := Pending]))
    case CallApprove(v, plants) => Approve(s, v, plants)
    case CallSuspend(v) => Suspend(s, v)
    case CallReinstate(v) => Reinstate(s, v)
    case CallCreateOperator(v, email, parses, name, subject) => CreateOperator(s, v, email, parses, name, subject)
    case CallSuspendOperator(v, op) => SuspendOperator(s, v, op)
    case CallReinstateOperator(v, op) => ReinstateOperator(s, v, op)
  }

  function RunCalls(s: State, calls: seq<Call>): State
    decreases |calls|
  {
    if calls == [] then s
    else RunCalls(match Perform(s, calls[0]) case Success(s') => s' case Failure(_) => s, calls[1..])
  }

  // ---------------------------------------------------------------- safety

  /** Active operators belong to approved vendors, every operator to a known one; emails are normal and no vendor has one twice. */
  ghost predicate Safe(s: State) {
    && (forall i | 0 <= i < |s.operators| ::
          && s.operators[i].vendor in s.vendors && Normal(s.operators[i].email) == s.operators[i].email
          && (s.operators[i].status == Active ==> s.vendors[s.operators[i].vendor] == Approved))
    && (forall i, j | 0 <= i < j < |s.operators| ::
          s.operators[i].vendor != s.operators[j].vendor || s.operators[i].email != s.operators[j].email)
  }

  lemma {:induction false} FindOperatorFinds(ops: seq<Operator>, v: nat, email: string)
    ensures var at := FindOperator(ops, v, email);
            if at.Some? then at.value < |ops| && ops[at.value].vendor == v && ops[at.value].email == email
            else forall i | 0 <= i < |ops| :: ops[i].vendor != v || ops[i].email != email
  {
    if ops != [] { FindOperatorFinds(ops[..|ops| - 1], v, email); }
  }

  /** The upsert leaves the account active and every account of another vendor or email alone. */
  lemma UpsertOnly(ops: seq<Operator>, v: nat, email: string, subject: bool)
    ensures var after := Upserted(ops, v, email, subject);
            && |after| >= |ops|
            && (exists i :: 0 <= i < |after| && after[i] == Operator(v, email, Active, subject))
            && forall i | 0 <= i < |ops| && (ops[i].vendor != v || ops[i].email != email) :: after[i] == ops[i]
  {
    FindOperatorFinds(ops, v, email);
    var at := FindOperator(ops, v, email);
    var i := if at.Some? then at.value else |ops|;
    assert Upserted(ops, v, email, subject)[i] == Operator(v, email, Active, subject);
  }

  lemma UpsertKeepsSafe(s: State, v: nat, email: string, subject: bool)
    requires Safe(s) && v in s.vendors && s.vendors[v] == Approved
    ensures Safe(s.(operators := Upserted(s.operators, v, Normal(email), subject)))
  {
    NormalIdempotent(email);
    FindOperatorFinds(s.operators, v, Normal(email));
  }

  lemma CallKeepsSafe(s: State, c: Call)
    requires Safe(s) && Perform(s, c).Success?
    ensures Safe(Perform(s, c).value)
  {
    if c.CallCreateOperator? { UpsertKeepsSafe(s, c.v, c.email, c.subject); }
  }

  /** After any run of calls no vendor that is not approved has an active operator. */
  lemma {:induction false} RunsAreSafe(s: State, calls: seq<Call>)
    requires Safe(s)
    ensures Safe(RunCalls(s, calls))
    decreases |calls|
  {
    if calls != [] {
      if Perform(s, calls[0]).Success? { CallKeepsSafe(s, calls[0]); }
      RunsAreSafe(match Perform(s, calls[0]) case Success(s') => s' case Failure(_) => s, calls[1..]);
    }
  }

  /**
   * An operator suspended individually is only ever made active by an administrator's action on that account: its own
   * reinstatement, or creating an operator with the same email, up to case and surrounding blanks. No call on the vendor does it.
   */
  lemma OnlyReinstatedByHand(s: State, c: Call, i: nat)
    requires Safe(s) && Perform(s, c).Success?
    requires i < |s.operators| && s.operators[i].status == OperatorSuspended
    ensures i < |Perform(s, c).value.operators|
    ensures Perform(s, c).value.operators[i].status == OperatorSuspended <==>
            !((c.CallReinstateOperator? && c.op == i)
              || (c.CallCreateOperator? && c.v == s.operators[i].vendor && Normal(c.email) == s.operators[i].email))
  {
    if c.CallCreateOperator? {
      NormalIdempotent(c.email);
      FindOperatorFinds(s.operators, c.v, Normal(c.email));
    }
  }

  /** Suspending never forgets who was suspended individually: reinstating the vendor leaves those operators alone. */
  lemma IndividuallySuspendedStay(s: State, v: nat, i: nat)
    requires i < |s.operators| && s.operators[i].status == OperatorSuspended
    requires Suspend(s, v).Success?
    ensures Reinstate(Suspend(s, v).value, v).Success? ==> Reinstate(Suspend(s, v).value, v).value.operators[i] == s.operators[i]
  {
  }

  /**
   * Suspend and then Reinstate restores every operator exactly when the vendor had no operator in the vendor-suspended state
   * before (an approval out of suspension leaves such operators behind).
   */
  lemma SuspendReinstateExactly(s: State, v: nat)
    requires Suspend(s, v).Success? && Reinstate(Suspend(s, v).value, v).Success?
    ensures Reinstate(Suspend(s, v).value, v).value == s <==>
            forall i | 0 <= i < |s.operators| && s.operators[i].vendor == v :: s.operators[i].status != VendorSuspended
  {
    var after := Reinstate(Suspend(s, v).value, v).value;
    if forall i | 0 <= i < |s.operators| && s.operators[i].vendor == v :: s.operators[i].status != VendorSuspended {
      assert after.operators == s.operators;
      assert after.vendors == s.vendors;
    } else {
      var i :| 0 <= i < |s.operators| && s.operators[i].vendor == v && s.operators[i].status == VendorSuspended;
      assert after.operators[i].status == Active;
    }
  }

  /** Approving a suspended vendor instead of reinstating it leaves its operators suspended; a later cycle activates them. */
  lemma ApprovalLeavesOperatorsBehind()
    ensures var s := State(map[1 := Suspended], [Operator(1, "a", VendorSuspended, true)], map[]);
            var approved := Approve(s, 1, []);
            && approved.Success? && approved.value.operators == s.operators
            && Suspend(approved.value, 1).Success?
            && Reinstate(Suspend(approved.value, 1).value, 1).Success?
            && Reinstate(Suspend(approved.value, 1).value, 1).value.operators == [Operator(1, "a", Active, true)]
  {
  }
}
