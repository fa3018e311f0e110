/** The service object over the vendor and operator tables. */
module VendorService {
  import opened Wrappers
  import opened Vendors

  class Service {
    var vendors: map<nat, VendorStatus>
    var operators: seq<Operator>
    var plants: map<nat, seq<nat>>

    function Current(): State
      reads this
    {
      State(vendors, operators, plants)
    }

    constructor ()
      ensures Current() == EMPTY_STATE && Safe(Current())
    {
      vendors, operators, plants := map[], [], map[];
    }

    method UpdateStatuses(v: nat, from: OperatorStatus, to: OperatorStatus)
      modifies this`operators
      ensures operators == SetStatuses(old(operators), v, from, to)
    {
      var i := 0;
      while i < |operators|
        invariant 0 <= i <= |operators| == |old(operators)|
        invariant forall k | 0 <= k < |operators| :: operators[k] == if k < i then SetStatuses(old(operators), v, from, to)[k] else old(operators)[k]
      {
        if operators[i].vendor == v && operators[i].status == from {
          operators := operators[i := operators[i].(status := to)];
        }
        i := i + 1;
      }
    }

    /** The loop of remote calls stops at the first account without a subject; nothing local has changed by then. */
    method RemoteCalls(v: nat, status: OperatorStatus) returns (ok: bool)
      ensures ok <==> AllProvisioned(operators, v, status)
    {
      for i := 0 to |operators|
        invariant forall k | 0 <= k < i && operators[k].vendor == v && operators[k].status == status :: operators[k].subject
      {
        if operators[i].vendor == v && operators[i].status == status && !operators[i].subject { return false; }
      }
      return true;
    }

    /** A pending or suspended vendor becomes approved and serves the given plants; no operator changes. */
    method Approve(v: nat, served: seq<nat>) returns (r: Result<(), VendorError>)
      modifies this
      ensures r.Failure? ==>
                r.error == if v !in old(vendors) then VendorNotFound else if old(vendors)[v] == Approved then AlreadyApproved else InvalidStatus
      ensures r.Success? <==> v in old(vendors) && old(vendors)[v] in {Pending, Suspended}
      ensures operators == old(operators)
      ensures vendors == if r.Success? then old(vendors)[v := Approved] else old(vendors)
      ensures plants == if r.Success? then old(plants)[v := served] else old(plants)
      ensures Safe(old(Current())) ==> Safe(Current())
    {
      if Safe(Current()) && Perform(Current(), CallApprove(v, served)).Success? { CallKeepsSafe(Current(), CallApprove(v, served)); }
      if v !in vendors { return Failure(VendorNotFound); }
      if vendors[v] == Approved { return Failure(AlreadyApproved); }
      if vendors[v] != Pending && vendors[v] != Suspended { return Failure(InvalidStatus); }
      vendors := vendors[v := Approved];
      plants := plants[v := served];
      return Success(());
    }

    method Suspend(v: nat) returns (r: Result<(), VendorError>)
      modifies this
      ensures match Vendors.Suspend(old(Current()), v)
              case Failure(e) => r == Failure(e) && Current() == old(Current())
              case Success(s) => r == Success(()) && Current() == s
      ensures r.Success? <==>
                && v in old(vendors) && old(vendors)[v] == Approved
                && forall i | 0 <= i < |old(operators)| && old(operators)[i].vendor == v && old(operators)[i].status == Active :: old(operators)[i].subject
      ensures r.Success? ==>
                && vendors == old(vendors)[v := Suspended] && plants == old(plants) && |operators| == |old(operators)|
                && forall i | 0 <= i < |operators| ::
                     operators[i] == if old(operators)[i].vendor == v && old(operators)[i].status == Active
                                     then old(operators)[i].(status := VendorSuspended) else old(operators)[i]
      ensures r.Failure? ==>
                && Current() == old(Current())
                && r.error == if v !in old(vendors) then VendorNotFound else if old(vendors)[v] != Approved then InvalidStatus else InvalidOperator
      ensures Safe(old(Current())) ==> Safe(Current())
    {
      if Safe(Current()) && Perform(Current(), CallSuspend(v)).Success? { CallKeepsSafe(Current(), CallSuspend(v)); }
      if v !in vendors { return Failure(VendorNotFound); }
      if vendors[v] != Approved { return Failure(InvalidStatus); }
      var ok := RemoteCalls(v, Active);
      if !ok { return Failure(InvalidOperator); }
      vendors := vendors[v := Suspended];
      UpdateStatuses(v, Active, VendorSuspended);
      return Success(());
    }

    method Reinstate(v: nat) returns (r: Result<(), VendorError>)
      modifies this
      ensures match Vendors.Reinstate(old(Current()), v)
              case Failure(e) => r == Failure(e) && Current() == old(Current())
              case Success(s) => r == Success(()) && Current() == s
      ensures r.Success? <==>
                && v in old(vendors) && old(vendors)[v] == Suspended
                && forall i | 0 <= i < |old(operators)| && old(operators)[i].vendor == v && old(operators)[i].status == VendorSuspended :: old(operators)[i].subject
      ensures r.Success? ==>
                && vendors == old(vendors)[v := Approved] && plants == old(plants) && |operators| == |old(operators)|
                && forall i | 0 <= i < |operators| ::
                     operators[i] == if old(operators)[i].vendor == v && old(operators)[i].status == VendorSuspended
                                     then old(operators)[i].(status := Active) else old(operators)[i]
      ensures r.Failure? ==>
                && Current() == old(Current())
                && r.error == if v !in old(vendors) then VendorNotFound else if old(vendors)[v] != Suspended then InvalidStatus else InvalidOperator
      ensures Safe(old(Current())) ==> Safe(Current())
    {
      if Safe(Current()) && Perform(Current(), CallReinstate(v)).Success? { CallKeepsSafe(Current(), CallReinstate(v)); }
      if v !in vendors { return Failure(VendorNotFound); }
      if vendors[v] != Suspended { return Failure(InvalidStatus); }
      var ok := RemoteCalls(v, VendorSuspended);
      if !ok { return Failure(InvalidOperator); }
      vendors := vendors[v := Approved];
      UpdateStatuses(v, VendorSuspended, Active);
      return Success(());
    }

    method FindAccount(v: nat, email: string) returns (at: Option<nat>)
      ensures at == FindOperator(operators, v, email)
    {
      at := None;
      var i := 0;
      while i < |operators|
        invariant 0 <= i <= |operators|
        invariant at == FindOperator(operators[..i], v, email)
      {
        assert operators[..i + 1][..i] == operators[..i];
        if at.None? && operators[i].vendor == v && operators[i].email == email { at := Some(i); }
        i := i + 1;
      }
      assert operators[..|operators|] == operators;
    }

    method Upsert(v: nat, email: string, subject: bool)
      modifies this`operators
      ensures operators == Upserted(old(operators), v, email, subject)
    {
      var at := FindAccount(v, email);
      FindOperatorFinds(operators, v, email);
      match at {
        case Some(i) => operators := operators[i := operators[i].(status := Active, subject := subject)];
        case None => operators := operators + [Operator(v, email, Active, subject)];
      }
    }

    /** One account per vendor and normalised email, active afterwards; every other account stays. */
    method CreateOperator(v: nat, email: string, parses: bool, displayName: string, subject: bool) returns (r: Result<(), VendorError>)
      modifies this
      ensures match Vendors.CreateOperator(old(Current()), v, email, parses, displayName, subject)
              case Failure(e) => r == Failure(e) && Current() == old(Current())
              case Success(s) => r == Success(()) && Current() == s
      ensures r.Success? ==> exists i :: 0 <= i < |operators| && operators[i] == Operator(v, Normal(email), Active, subject)
      ensures r.Success? <==> v in old(vendors) && old(vendors)[v] == Approved && Normal(email) != "" && parses && Trim(displayName) != ""
      ensures r.Failure? ==>
                && Current() == old(Current())
                && r.error == if v !in old(vendors) then VendorNotFound else if old(vendors)[v] != Approved then InvalidStatus else InvalidOperator
      ensures vendors == old(vendors) && plants == old(plants) && |operators| >= |old(operators)|
      ensures forall i | 0 <= i < |old(operators)| && (old(operators)[i].vendor != v || old(operators)[i].email != Normal(email)) :: operators[i] == old(operators)[i]
      ensures Safe(old(Current())) ==> Safe(Current())
    {
      if v !in vendors { return Failure(VendorNotFound); }
      if vendors[v] != Approved { return Failure(InvalidStatus); }
      var normal := Normal(email);
      if normal == "" || !parses || Trim(displayName) == "" { return Failure(InvalidOperator); }
      UpsertOnly(operators, v, normal, subject);
      if Safe(Current()) { UpsertKeepsSafe(Current(), v, email, subject); }
      Upsert(v, normal, subject);
      return Success(());
    }

    /** Only an active account of the vendor that the provider knows; no other account changes. */
    method SuspendOperator(v: nat, op: nat) returns (r: Result<(), VendorError>)
      modifies this
      ensures r.Failure? ==>
                r.error == if op >= |old(operators)| || old(operators)[op].vendor != v then OperatorNotFound
                           else if old(operators)[op].status != Active then InvalidStatus else InvalidOperator
      ensures r.Success? <==>
                op < |old(operators)| && old(operators)[op].vendor == v && old(operators)[op].status == Active && old(operators)[op].subject
      ensures vendors == old(vendors) && plants == old(plants) && |operators| == |old(operators)|
      ensures forall i | 0 <= i < |operators| ::
                operators[i] == if r.Success? && i == op then old(operators)[i].(status := OperatorSuspended) else old(operators)[i]
      ensures Safe(old(Current())) ==> Safe(Current())
    {
      if Safe(Current()) && Perform(Current(), CallSuspendOperator(v, op)).Success? { CallKeepsSafe(Current(), CallSuspendOperator(v, op)); }
      if op >= |operators| || operators[op].vendor != v { return Failure(OperatorNotFound); }
      if operators[op].status != Active { return Failure(InvalidStatus); }
      if !operators[op].subject { return Failure(InvalidOperator); }
      operators := operators[op := operators[op].(status := OperatorSuspended)];
      return Success(());
    }

    /** From either suspended status, under an approved vendor; no other account changes. */
    method ReinstateOperator(v: nat, op: nat) returns (r: Result<(), VendorError>)
      modifies this
      ensures r.Failure? ==>
                r.error == if v !in old(vendors) then VendorNotFound else if old(vendors)[v] != Approved then InvalidStatus
                           else if op >= |old(operators)| || old(operators)[op].vendor != v then OperatorNotFound
                           else if old(operators)[op].status == Active then InvalidStatus else InvalidOperator
      ensures r.Success? <==>
                && v in old(vendors) && old(vendors)[v] == Approved && op < |old(operators)|
                && old(operators)[op].vendor == v && old(operators)[op].status != Active && old(operators)[op].subject
      ensures vendors == old(vendors) && plants == old(plants) && |operators| == |old(operators)|
      ensures forall i | 0 <= i < |operators| ::
                operators[i] == if r.Success? && i == op then old(operators)[i].(status := Active) else old(operators)[i]
      ensures Safe(old(Current())) ==> Safe(Current())
    {
      if Safe(Current()) && Perform(Current(), CallReinstateOperator(v, op)).Success? { CallKeepsSafe(Current(), CallReinstateOperator(v, op)); }
      if v !in vendors { return Failure(VendorNotFound); }
      if vendors[v] != Approved { return Failure(InvalidStatus); }
      if op >= |operators| || operators[op].vendor != v { return Failure(OperatorNotFound); }
      if operators[op].status != OperatorSuspended && operators[op].status != VendorSuspended { return Failure(InvalidStatus); }
      if !operators[op].subject { return Failure(InvalidOperator); }
      operators := operators[op := operators[op].(status := Active)];
      return Success(());
    }
  }
}
