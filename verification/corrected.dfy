/**
 * REQUEST refuses a customer that still has an active ride, so the protocol
 * evidently means a customer to have at most one active ride at a time. Two
 * handlers break that: UPDATE:START is refused only when the ride is already
 * in START, so a CANCELLED or ended ride can be started again; and ASSIGN
 * checks only the assigned flag, so a cancelled ride nobody was assigned to
 * can be assigned and becomes active again. This module exhibits both on a
 * concrete registry that satisfies the global invariant, and defines the
 * corrected step (START only from ASSIGNED, ASSIGN only from REQUESTED),
 * which keeps both the global invariant and the one-active-ride rule.
 */
module Corrected {
  import opened Wrappers
  import opened Text
  import opened Numerals
  import opened Users
  import opened Rides
  import opened Registry
  import opened Protocol
  import opened Invariants

  /** No customer session owns two active rides. */
  ghost predicate OneActivePerCustomer(rides: seq<Ride>) {
    forall i, j :: 0 <= i < j < |rides| && IsActive(rides[i]) && IsActive(rides[j]) ==>
      rides[i].customer != rides[j].customer
  }

  // ---------------------------------------------------------------------
  // The code as written
  // ---------------------------------------------------------------------

  /** A registry the invariant allows: customer `cc` (session 0) had ride 1
      assigned to driver `d` (session 1) and cancelled it, then requested
      ride 2, on which `d` had offered before cancelling it, and now has
      ride 3 requested. */
  function Witness(): Registry {
    var customer := User("cc", "pw", "customer", 0.0, 0);
    var driver := User("d", "pw", "driver", 0.0, 0);
    Registry(
      [User("admin", "admin123", "admin", 0.0, 0), customer, driver],
      [Session(Some(1), false, NoOffer, true), Session(Some(2), false, NoOffer, true)],
      [1],
      [0],
      [Ride(1, "a", "b", 0, true, Some(1), Cancelled, false, map["d" := 10.0]),
       Ride(2, "a", "b", 0, false, None, Cancelled, false, map["d" := 10.0]),
       Ride(3, "a", "b", 0, false, None, Requested, false, map[])],
      4)
  }

  lemma WitnessRolesOk()
    ensures Wf(Witness()) && RolesOk(Witness())
  {
    var r := Witness();
    assert IsCustomer(r.users[1]) && IsDriver(r.users[2]);
    assert !IsDriver(r.users[1]) && !IsCustomer(r.users[2]);
    assert ActsAsCustomer(r, 0) && ActsAsDriver(r, 1);
    assert !ActsAsDriver(r, 0) && !ActsAsCustomer(r, 1);
    assert NoDup(r.drivers) && NoDup(r.customers);
  }

  lemma WitnessRidesOk()
    ensures RidesOk(Witness())
  {
    var r := Witness();
    assert IsCustomer(r.users[1]) && IsDriver(r.users[2]);
    assert ActsAsCustomer(r, 0) && ActsAsDriver(r, 1);
    assert RideOk(r, 0) && RideOk(r, 1) && RideOk(r, 2);
  }

  lemma WitnessIsReachableShape()
    ensures Inv(Witness()) && OneActivePerCustomer(Witness().rides)
  {
    WitnessRolesOk();
    WitnessRidesOk();
    var r := Witness();
    assert !EqualsIgnoreCase(r.users[0].name, r.users[1].name);
    assert !EqualsIgnoreCase(r.users[0].name, r.users[2].name);
    assert !EqualsIgnoreCase(r.users[1].name, r.users[2].name);
  }

  lemma ParseOne()
    ensures ParseInt("1") == Some(1) && ParseInt("2") == Some(2)
  {
    assert SplitSign("1") == (false, "1");
    assert SplitSign("2") == (false, "2");
    assert DigitsValue("1") == 1 by { assert "1"[..0] == ""; }
    assert DigitsValue("2") == 2 by { assert "2"[..0] == ""; }
  }

  /** Driver `d` may start ride 1 of the witness, as the code is written. */
  lemma WitnessUpdateAccepted()
    ensures UpdateAccepted(Witness(), 1, ["UPDATE", "1", "START"])
  {
    ParseOne();
    UpperCaseIsFixed("START");
    var r := Witness();
    assert FindRide(r.rides, 1) == Some(0);
    EqualsIgnoreCaseIsEquivalence("d", "d", "d");
    assert DrivenBy(r, 0, 1);
  }

  /** Starting ride 1 of the witness leaves rides 1 and 3 of customer `cc` both active. */
  lemma WitnessUpdateResult()
    ensures var rides := Update(Witness(), 1, ["UPDATE", "1", "START"]).reg.rides;
      |rides| == 3 && IsActive(rides[0]) && IsActive(rides[2]) && rides[0].customer == rides[2].customer
  {
    WitnessRolesOk();
    WitnessUpdateAccepted();
    ParseOne();
    UpperCaseIsFixed("START");
    var r := Witness();
    assert FindRide(r.rides, 1) == Some(0);
    var r' := Update(r, 1, ["UPDATE", "1", "START"]).reg;
    assert r'.rides == r.rides[0 := r.rides[0].(status := Started)];
  }

  /** As written, driver `d` can start the cancelled ride 1 again, after
      which customer `cc` has two active rides. */
  lemma UpdateRestartsCancelledRide()
    ensures Inv(Witness()) && OneActivePerCustomer(Witness().rides)
    ensures UpdateAccepted(Witness(), 1, ["UPDATE", "1", "START"])
    ensures !OneActivePerCustomer(Update(Witness(), 1, ["UPDATE", "1", "START"]).reg.rides)
  {
    WitnessIsReachableShape();
    WitnessUpdateAccepted();
    WitnessUpdateResult();
    var rides := Update(Witness(), 1, ["UPDATE", "1", "START"]).reg.rides;
    assert IsActive(rides[0]) && IsActive(rides[2]);
  }

  /** Customer `cc` may assign ride 2 of the witness to `d`, as the code is written. */
  lemma WitnessAssignAccepted()
    ensures AssignAccepted(Witness(), 0, ["ASSIGN", "2", "d"])
    ensures AssignDriver(Witness().rides[1], "d", ConnectedDrivers(Witness())).Some?
  {
    ParseOne();
    var r := Witness();
    assert FindRide(r.rides, 2) == Some(1);
    EqualsIgnoreCaseIsEquivalence("d", "d", "d");
    assert "d" in r.rides[1].offers;
    assert ConnectedDrivers(r)[0].1 == "d";
  }

  /** An accepted ASSIGN, as written, leaves its ride active and every other ride as it was. */
  lemma AssignedRideIsActive(r: Registry, s: nat, tokens: seq<string>)
    requires Wf(r) && LoggedIn(r, s) && AssignAccepted(r, s, tokens)
    ensures
      var k := FindRide(r.rides, ParseInt(tokens[1]).value).value;
      var rides' := Assign(r, s, tokens).reg.rides;
      && |rides'| == |r.rides| && IsActive(rides'[k]) && rides'[k].customer == r.rides[k].customer
      && forall j :: 0 <= j < |r.rides| && j != k ==> rides'[j] == r.rides[j]
  {
    var id := ParseInt(tokens[1]).value;
    var k := FindRide(r.rides, id).value;
    var (ride, d) := AssignDriver(r.rides[k], tokens[2], ConnectedDrivers(r)).value;
    assert Assign(r, s, tokens).reg == CommitAssignment(r, k, ride, d, id);
  }

  /** Assigning ride 2 of the witness leaves rides 2 and 3 of customer `cc` both active. */
  lemma WitnessAssignResult()
    ensures var rides := Assign(Witness(), 0, ["ASSIGN", "2", "d"]).reg.rides;
      |rides| == 3 && IsActive(rides[1]) && IsActive(rides[2]) && rides[1].customer == rides[2].customer
  {
    WitnessRolesOk();
    WitnessAssignAccepted();
    ParseOne();
    assert FindRide(Witness().rides, 2) == Some(1);
    AssignedRideIsActive(Witness(), 0, ["ASSIGN", "2", "d"]);
  }

  /** As written, customer `cc` can assign the cancelled, never-assigned
      ride 2 to driver `d`, after which it has two active rides. */
  lemma AssignRevivesCancelledRide()
    ensures Inv(Witness()) && OneActivePerCustomer(Witness().rides)
    ensures AssignAccepted(Witness(), 0, ["ASSIGN", "2", "d"])
    ensures !OneActivePerCustomer(Assign(Witness(), 0, ["ASSIGN", "2", "d"]).reg.rides)
  {
    WitnessIsReachableShape();
    WitnessAssignAccepted();
    WitnessAssignResult();
    var rides := Assign(Witness(), 0, ["ASSIGN", "2", "d"]).reg.rides;
    assert IsActive(rides[1]) && IsActive(rides[2]);
  }

  // ---------------------------------------------------------------------
  // The corrected handlers
  // ---------------------------------------------------------------------

  /** UPDATE with START allowed only from ASSIGNED; otherwise as written. */
  function UpdateFixed(r: Registry, s: nat, tokens: seq<string>): (rep: Reply)
    requires Wf(r) && LoggedIn(r, s)
    ensures Wf(rep.reg)
    ensures rep.reg != r ==> UpdateAccepted(r, s, tokens) && rep == Update(r, s, tokens)
    ensures rep != Update(r, s, tokens) ==>
      && rep == Reject(r, s, NotStartable)
      && IsDriver(UserOf(r, s)) && |tokens| >= 3 && ParseInt(tokens[1]).Some? && ToUpper(tokens[2]) == Started
      && FindRide(r.rides, ParseInt(tokens[1]).value).Some?
      && DrivenBy(r, FindRide(r.rides, ParseInt(tokens[1]).value).value, s)
      && r.rides[FindRide(r.rides, ParseInt(tokens[1]).value).value].status != Assigned
    ensures rep.reg != r && ToUpper(tokens[2]) == Started ==>
      r.rides[FindRide(r.rides, ParseInt(tokens[1]).value).value].status == Assigned
  {
    if && IsDriver(UserOf(r, s)) && |tokens| >= 3 && ParseInt(tokens[1]).Some? && ToUpper(tokens[2]) == Started
       && FindRide(r.rides, ParseInt(tokens[1]).value).Some?
       && DrivenBy(r, FindRide(r.rides, ParseInt(tokens[1]).value).value, s)
       && r.rides[FindRide(r.rides, ParseInt(tokens[1]).value).value].status != Assigned
    then Reject(r, s, NotStartable)
    else Update(r, s, tokens)
  }

  /** ASSIGN allowed only on a REQUESTED ride; otherwise as written. */
  function AssignFixed(r: Registry, s: nat, tokens: seq<string>): (rep: Reply)
    requires Wf(r) && LoggedIn(r, s)
    ensures Wf(rep.reg)
    ensures rep.reg != r ==> AssignAccepted(r, s, tokens) && rep == Assign(r, s, tokens)
    ensures rep != Assign(r, s, tokens) ==>
      && rep == Reject(r, s, RideClosed)
      && IsCustomer(UserOf(r, s)) && |tokens| >= 3 && ParseInt(tokens[1]).Some?
      && FindRide(r.rides, ParseInt(tokens[1]).value).Some?
      && r.rides[FindRide(r.rides, ParseInt(tokens[1]).value).value].customer == s
      && !r.rides[FindRide(r.rides, ParseInt(tokens[1]).value).value].isAssigned
      && r.rides[FindRide(r.rides, ParseInt(tokens[1]).value).value].status != Requested
    ensures rep.reg != r ==> r.rides[FindRide(r.rides, ParseInt(tokens[1]).value).value].status == Requested
  {
    if && IsCustomer(UserOf(r, s)) && |tokens| >= 3 && ParseInt(tokens[1]).Some?
       && FindRide(r.rides, ParseInt(tokens[1]).value).Some?
       && r.rides[FindRide(r.rides, ParseInt(tokens[1]).value).value].customer == s
       && !r.rides[FindRide(r.rides, ParseInt(tokens[1]).value).value].isAssigned
       && r.rides[FindRide(r.rides, ParseInt(tokens[1]).value).value].status != Requested
    then Reject(r, s, RideClosed)
    else Assign(r, s, tokens)
  }

  /** The corrected step: UPDATE and ASSIGN go to the corrected handlers,
      every other line is read as written. */
  function StepFixed(r: Registry, s: nat, line: string): (rep: Reply)
    requires Wf(r) && s < |r.sessions|
    ensures Wf(rep.reg) && |rep.reg.sessions| == |r.sessions|
  {
    var tokens := Tokens(line, ':');
    if r.sessions[s].running && r.sessions[s].user.Some? && |tokens| > 0 && ToUpper(tokens[0]) == "UPDATE"
    then UpdateFixed(r, s, tokens)
    else if r.sessions[s].running && r.sessions[s].user.Some? && |tokens| > 0 && ToUpper(tokens[0]) == "ASSIGN"
    then AssignFixed(r, s, tokens)
    else Step(r, s, line)
  }

  /** The corrected step keeps the global invariant. */
  lemma StepFixedKeepsInv(r: Registry, s: nat, line: string)
    requires Inv(r) && s < |r.sessions|
    ensures Inv(StepFixed(r, s, line).reg)
  {
    var tokens := Tokens(line, ':');
    if r.sessions[s].running && r.sessions[s].user.Some? && |tokens| > 0 && ToUpper(tokens[0]) == "UPDATE" {
      UpdateKeepsInv(r, s, tokens);
    } else if r.sessions[s].running && r.sessions[s].user.Some? && |tokens| > 0 && ToUpper(tokens[0]) == "ASSIGN" {
      AssignKeepsInv(r, s, tokens);
    } else {
      StepKeepsInv(r, s, line);
    }
  }

  // ---------------------------------------------------------------------
  // One active ride per customer
  // ---------------------------------------------------------------------

  /** `b` has the rides of `a`, with the same customers, and no inactive
      ride has become active. */
  ghost predicate NoRideReactivated(a: seq<Ride>, b: seq<Ride>) {
    |b| == |a| && forall i :: 0 <= i < |a| ==> b[i].customer == a[i].customer && (IsActive(b[i]) ==> IsActive(a[i]))
  }

  lemma OneActiveKept(a: seq<Ride>, b: seq<Ride>)
    requires OneActivePerCustomer(a) && NoRideReactivated(a, b)
    ensures OneActivePerCustomer(b)
  {
    forall i, j | 0 <= i < j < |b| && IsActive(b[i]) && IsActive(b[j]) ensures b[i].customer != b[j].customer {
      assert IsActive(a[i]) && IsActive(a[j]);
    }
  }

  /** REQUEST adds an active ride only for a customer without one. */
  lemma RequestKeepsOneActive(r: Registry, s: nat, tokens: seq<string>)
    requires Wf(r) && LoggedIn(r, s) && OneActivePerCustomer(r.rides)
    ensures OneActivePerCustomer(Request(r, s, tokens).reg.rides)
  {
    var rides' := Request(r, s, tokens).reg.rides;
    if IsCustomer(UserOf(r, s)) && !HasActiveRide(r.rides, s) && |tokens| >= 3 {
      forall i, j | 0 <= i < j < |rides'| && IsActive(rides'[i]) && IsActive(rides'[j])
        ensures rides'[i].customer != rides'[j].customer
      {
        if j == |r.rides| {
          assert !OwnsActive(r.rides[i], s);
        }
      }
    }
  }

  lemma OfferKeepsOneActive(r: Registry, s: nat, tokens: seq<string>)
    requires Wf(r) && LoggedIn(r, s)
    ensures NoRideReactivated(r.rides, Offer(r, s, tokens).reg.rides)
  {
  }

  lemma RateKeepsOneActive(r: Registry, s: nat, tokens: seq<string>)
    requires Wf(r) && LoggedIn(r, s)
    ensures NoRideReactivated(r.rides, Rate(r, s, tokens).reg.rides)
  {
  }

  lemma CancelKeepsOneActive(r: Registry, s: nat)
    requires Wf(r) && LoggedIn(r, s)
    ensures NoRideReactivated(r.rides, Cancel(r, s).reg.rides)
  {
    var rep := Cancel(r, s);
    if IsCustomer(UserOf(r, s)) && LatestActive(r.rides, s).Some? && r.rides[LatestActive(r.rides, s).value].status != Started {
      var k := LatestActive(r.rides, s).value;
      assert rep.reg.rides == r.rides[k := r.rides[k].(status := Cancelled)];
    } else {
      assert rep.reg == r;
    }
  }

  /** Corrected UPDATE moves a ride only from ASSIGNED to START or from
      START to END. */
  lemma UpdateFixedKeepsOneActive(r: Registry, s: nat, tokens: seq<string>)
    requires Wf(r) && LoggedIn(r, s)
    ensures NoRideReactivated(r.rides, UpdateFixed(r, s, tokens).reg.rides)
  {
    var rep := UpdateFixed(r, s, tokens);
    if rep.reg != r {
      var k := FindRide(r.rides, ParseInt(tokens[1]).value).value;
      assert IsActive(r.rides[k]);
    }
  }

  /** Corrected ASSIGN moves a ride only from REQUESTED to ASSIGNED. */
  lemma AssignFixedKeepsOneActive(r: Registry, s: nat, tokens: seq<string>)
    requires Wf(r) && LoggedIn(r, s)
    ensures NoRideReactivated(r.rides, AssignFixed(r, s, tokens).reg.rides)
  {
    var rep := AssignFixed(r, s, tokens);
    if rep.reg != r {
      var k := FindRide(r.rides, ParseInt(tokens[1]).value).value;
      AssignedRideIsActive(r, s, tokens);
      assert IsActive(r.rides[k]);
    }
  }

  /** Every command except UPDATE and ASSIGN, as written, keeps the rule. */
  lemma OtherCommandKeepsOneActive(r: Registry, s: nat, line: string)
    requires Wf(r) && LoggedIn(r, s) && OneActivePerCustomer(r.rides)
    requires var tokens := Tokens(line, ':'); |tokens| > 0 ==> ToUpper(tokens[0]) != "UPDATE" && ToUpper(tokens[0]) != "ASSIGN"
    ensures OneActivePerCustomer(CommandStep(r, s, line).reg.rides)
  {
    var tokens := Tokens(line, ':');
    if |tokens| > 0 {
      var verb := ToUpper(tokens[0]);
      if verb == "REQUEST" {
        RequestKeepsOneActive(r, s, tokens);
      } else if verb == "OFFER" {
        OfferKeepsOneActive(r, s, tokens);
        OneActiveKept(r.rides, Offer(r, s, tokens).reg.rides);
      } else if verb == "RATE" {
        RateKeepsOneActive(r, s, tokens);
        OneActiveKept(r.rides, Rate(r, s, tokens).reg.rides);
      } else if verb == "CANCEL" {
        CancelKeepsOneActive(r, s);
        OneActiveKept(r.rides, Cancel(r, s).reg.rides);
      }
    }
  }

  /** The corrected step keeps every customer at one active ride at most. */
  lemma StepFixedKeepsOneActive(r: Registry, s: nat, line: string)
    requires Wf(r) && s < |r.sessions| && OneActivePerCustomer(r.rides)
    ensures OneActivePerCustomer(StepFixed(r, s, line).reg.rides)
  {
    var tokens := Tokens(line, ':');
    if r.sessions[s].running && r.sessions[s].user.Some? && |tokens| > 0 && ToUpper(tokens[0]) == "UPDATE" {
      UpdateFixedKeepsOneActive(r, s, tokens);
      OneActiveKept(r.rides, UpdateFixed(r, s, tokens).reg.rides);
    } else if r.sessions[s].running && r.sessions[s].user.Some? && |tokens| > 0 && ToUpper(tokens[0]) == "ASSIGN" {
      AssignFixedKeepsOneActive(r, s, tokens);
      OneActiveKept(r.rides, AssignFixed(r, s, tokens).reg.rides);
    } else if r.sessions[s].running && r.sessions[s].user.Some? {
      OtherCommandKeepsOneActive(r, s, line);
    }
  }

  /** Corrected UPDATE refuses to restart the cancelled ride of the witness. */
  lemma UpdateFixedRefusesRestart()
    ensures UpdateFixed(Witness(), 1, ["UPDATE", "1", "START"]) == Reject(Witness(), 1, NotStartable)
  {
    UpdateRestartsCancelledRide();
  }

  /** Corrected ASSIGN refuses to revive the cancelled ride of the witness. */
  lemma AssignFixedRefusesRevival()
    ensures AssignFixed(Witness(), 0, ["ASSIGN", "2", "d"]) == Reject(Witness(), 0, RideClosed)
  {
    AssignRevivesCancelledRide();
  }

  // ---------------------------------------------------------------------
  // Histories under the corrected step
  // ---------------------------------------------------------------------

  function ApplyFixed(r: Registry, e: Event): (r': Registry)
    requires Wf(r)
    ensures Wf(r')
  {
    match e
    case Open => Connect(r)
    case Line(s, text) => if s < |r.sessions| then StepFixed(r, s, text).reg else r
    case Close(s) => if s < |r.sessions| && r.sessions[s].running then Teardown(r, s) else r
  }

  function RunFixed(events: seq<Event>): (r: Registry)
    ensures Wf(r)
    decreases |events|
  {
    if |events| == 0 then Init() else ApplyFixed(RunFixed(events[..|events| - 1]), events[|events| - 1])
  }

  /** One event of the corrected server keeps both invariants. */
  lemma ApplyFixedKeepsOneActive(r: Registry, e: Event)
    requires Inv(r) && OneActivePerCustomer(r.rides)
    ensures Inv(ApplyFixed(r, e)) && OneActivePerCustomer(ApplyFixed(r, e).rides)
  {
    match e
    case Open =>
      ConnectKeepsInv(r);
    case Line(s, text) =>
      if s < |r.sessions| {
        StepFixedKeepsInv(r, s, text);
        StepFixedKeepsOneActive(r, s, text);
      }
    case Close(s) =>
      if s < |r.sessions| && r.sessions[s].running {
        TeardownKeepsInv(r, s);
      }
  }

  /** Every registry the corrected server can reach satisfies the global
      invariant and gives each customer at most one active ride. */
  lemma {:induction false} RunFixedKeepsOneActive(events: seq<Event>)
    ensures Inv(RunFixed(events)) && OneActivePerCustomer(RunFixed(events).rides)
    decreases |events|
  {
    if |events| == 0 {
      InitInv();
    } else {
      var prefix := events[..|events| - 1];
      RunFixedKeepsOneActive(prefix);
      ApplyFixedKeepsOneActive(RunFixed(prefix), events[|events| - 1]);
    }
  }
}
