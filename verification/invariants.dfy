/**
 * The global invariants the command handlers keep: unique usernames with a
 * known role, role lists that hold exactly the running sessions of each role,
 * rides numbered by position whose flags agree with their status, and pending
 * offers that name an open ride. Every registry reachable from the seeded one
 * satisfies them, and several handler guarantees rest on them.
 */
module Invariants {
  import opened Wrappers
  import opened Text
  import opened Numerals
  import opened Users
  import opened Rides
  import opened Registry
  import opened Protocol

  /** The roles a stored user can have: the seeded admin's, and the two REGISTER stores. */
  predicate KnownKind(kind: string) {
    kind == "admin" || kind == "driver" || kind == "customer"
  }

  /** Usernames are unique ignoring case, and every role is a known one. */
  ghost predicate UsersOk(users: seq<User>) {
    && (forall i, j :: 0 <= i < j < |users| ==> !EqualsIgnoreCase(users[i].name, users[j].name))
    && (forall i :: 0 <= i < |users| ==> KnownKind(users[i].kind))
  }

  /** A session that has not logged in is neither busy nor holding an offer. */
  ghost predicate SessionsOk(sessions: seq<Session>) {
    forall t :: 0 <= t < |sessions| && sessions[t].user.None? ==>
      !sessions[t].busy && sessions[t].offerRideId == NoOffer
  }

  /** Session `t` has logged in as a user with the driver role. */
  ghost predicate ActsAsDriver(r: Registry, t: nat) {
    && t < |r.sessions| && r.sessions[t].user.Some? && r.sessions[t].user.value < |r.users|
    && IsDriver(r.users[r.sessions[t].user.value])
  }

  /** Session `t` has logged in as a user with the customer role. */
  ghost predicate ActsAsCustomer(r: Registry, t: nat) {
    && t < |r.sessions| && r.sessions[t].user.Some? && r.sessions[t].user.value < |r.users|
    && IsCustomer(r.users[r.sessions[t].user.value])
  }

  /** The driver list holds exactly the running driver sessions and the
      customer list exactly the running customer sessions, each once. */
  ghost predicate RolesOk(r: Registry) {
    && (forall t: nat :: t in r.drivers <==> ActsAsDriver(r, t) && r.sessions[t].running)
    && (forall t: nat :: t in r.customers <==> ActsAsCustomer(r, t) && r.sessions[t].running)
    && NoDup(r.drivers) && NoDup(r.customers)
  }

  /** Ride `i` carries id `i + 1` and a status the server stores; it is
      assigned exactly when it has a driver, never while REQUESTED and always
      once ASSIGNED, START or END; only an assigned ride is rated; it was
      requested by a customer and is driven by a driver. */
  ghost predicate RideOk(r: Registry, i: nat)
    requires i < |r.rides|
  {
    var ride := r.rides[i];
    && ride.id == i + 1
    && ValidStatus(ride.status)
    && (ride.isAssigned <==> ride.driver.Some?)
    && (ride.status == Requested ==> !ride.isAssigned)
    && (ride.status == Assigned || ride.status == Started || ride.status == Ended ==> ride.isAssigned)
    && (ride.rated ==> ride.isAssigned)
    && ActsAsCustomer(r, ride.customer)
    && (ride.driver.Some? ==> ActsAsDriver(r, ride.driver.value))
  }

  /** Every ride is in order and the id counter is one past the last ride. */
  ghost predicate RidesOk(r: Registry) {
    && r.nextRideId == |r.rides| + 1
    && forall i :: 0 <= i < |r.rides| ==> RideOk(r, i)
  }

  /** The pending offer of driver session `t` names an existing ride that is
      not yet assigned and whose offer book holds the driver's name. */
  ghost predicate PendingValid(r: Registry, t: nat)
    requires Wf(r) && LoggedIn(r, t)
  {
    var id := r.sessions[t].offerRideId;
    && 1 <= id <= |r.rides|
    && !r.rides[id - 1].isAssigned
    && NameOf(r, t) in r.rides[id - 1].offers
  }

  /** Every connected driver's pending offer is valid. */
  ghost predicate PendingOk(r: Registry)
    requires Wf(r)
  {
    forall t :: t in r.drivers && r.sessions[t].offerRideId != NoOffer ==> PendingValid(r, t)
  }

  /** All global invariants together. */
  ghost predicate Inv(r: Registry) {
    && Wf(r)
    && UsersOk(r.users)
    && SessionsOk(r.sessions)
    && RolesOk(r)
    && RidesOk(r)
    && PendingOk(r)
  }

  /** Every session keeps its user and every existing user its name and role;
      users may only be appended. */
  ghost predicate SameLogins(r: Registry, r': Registry) {
    && |r'.sessions| == |r.sessions| && |r.users| <= |r'.users|
    && (forall t :: 0 <= t < |r.sessions| ==> r'.sessions[t].user == r.sessions[t].user)
    && (forall u :: 0 <= u < |r.users| ==> r'.users[u].name == r.users[u].name && r'.users[u].kind == r.users[u].kind)
  }

  // ---------------------------------------------------------------------
  // Frame lemmas
  // ---------------------------------------------------------------------

  /** With the same logins, every session plays the same role under the same name. */
  lemma LoginsKept(r: Registry, r': Registry)
    requires Wf(r) && Wf(r') && SameLogins(r, r')
    ensures forall t :: ActsAsDriver(r', t) <==> ActsAsDriver(r, t)
    ensures forall t :: ActsAsCustomer(r', t) <==> ActsAsCustomer(r, t)
    ensures forall t :: LoggedIn(r, t) ==> LoggedIn(r', t) && NameOf(r', t) == NameOf(r, t)
  {
  }

  /** The role-list invariant survives any change that keeps the logins, the
      running flags and both lists. */
  lemma RolesKept(r: Registry, r': Registry)
    requires Inv(r) && Wf(r') && SameLogins(r, r')
    requires forall t :: 0 <= t < |r.sessions| ==> r'.sessions[t].running == r.sessions[t].running
    requires r'.drivers == r.drivers && r'.customers == r.customers
    ensures RolesOk(r')
  {
    LoginsKept(r, r');
  }

  /** A ride left as it was stays in order when the logins are kept. */
  lemma RidesKept(r: Registry, r': Registry)
    requires Inv(r) && Wf(r') && SameLogins(r, r')
    ensures forall i :: 0 <= i < |r.rides| && i < |r'.rides| && r'.rides[i] == r.rides[i] ==> RideOk(r', i)
  {
    LoginsKept(r, r');
    forall i | 0 <= i < |r.rides| && i < |r'.rides| && r'.rides[i] == r.rides[i] ensures RideOk(r', i) {
      assert RideOk(r, i);
    }
  }

  /** Replacing one ride by one that is in order keeps every ride in order,
      when the logins are kept. */
  lemma OneRideChangedOk(r: Registry, r': Registry, k: nat)
    requires Inv(r) && Wf(r') && SameLogins(r, r')
    requires k < |r.rides| && |r'.rides| == |r.rides| && r'.nextRideId == r.nextRideId
    requires forall i :: 0 <= i < |r.rides| && i != k ==> r'.rides[i] == r.rides[i]
    requires RideOk(r', k)
    ensures RidesOk(r')
  {
    RidesKept(r, r');
  }

  /** Pending offers stay valid across a change that keeps the users, the
      logins and the driver list, keeps or clears each pending offer, and
      leaves alone every ride a remaining pending offer names. */
  lemma PendingKept(r: Registry, r': Registry)
    requires Wf(r) && PendingOk(r) && Wf(r')
    requires r'.users == r.users && r'.drivers == r.drivers
    requires |r'.sessions| == |r.sessions| && |r'.rides| == |r.rides|
    requires forall t :: 0 <= t < |r.sessions| ==> r'.sessions[t].user == r.sessions[t].user
    requires forall t :: t in r.drivers && r'.sessions[t].offerRideId != NoOffer ==>
      && r'.sessions[t].offerRideId == r.sessions[t].offerRideId
      && (1 <= r.sessions[t].offerRideId <= |r.rides| ==>
            && r'.rides[r.sessions[t].offerRideId - 1].isAssigned == r.rides[r.sessions[t].offerRideId - 1].isAssigned
            && r'.rides[r.sessions[t].offerRideId - 1].offers == r.rides[r.sessions[t].offerRideId - 1].offers)
    ensures PendingOk(r')
  {
    forall t | t in r'.drivers && r'.sessions[t].offerRideId != NoOffer ensures PendingValid(r', t) {
      assert PendingValid(r, t);
    }
  }

  /** Under the invariant a ride id is its position plus one. */
  lemma RideAt(r: Registry, id: int)
    requires Inv(r)
    ensures FindRide(r.rides, id) == if 1 <= id <= |r.rides| then Some(id - 1) else None
  {
    forall i | 0 <= i < |r.rides| ensures r.rides[i].id == i + 1 {
      assert RideOk(r, i);
    }
    FindRideNumbered(r.rides, id);
  }

  // ---------------------------------------------------------------------
  // The seeded registry, connections and teardown
  // ---------------------------------------------------------------------

  lemma InitInv()
    ensures Inv(Init())
  {
    LowerCaseIsFixed("admin");
  }

  lemma ConnectKeepsInv(r: Registry)
    requires Inv(r)
    ensures Inv(Connect(r))
  {
    var r' := Connect(r);
    assert forall t :: ActsAsDriver(r', t) <==> ActsAsDriver(r, t);
    assert forall t :: ActsAsCustomer(r', t) <==> ActsAsCustomer(r, t);
    forall i | 0 <= i < |r'.rides| ensures RideOk(r', i) {
      assert RideOk(r, i);
    }
    forall t | t in r'.drivers && r'.sessions[t].offerRideId != NoOffer ensures PendingValid(r', t) {
      assert PendingValid(r, t);
    }
  }

  /** Tearing a session down keeps the invariant: the session leaves its role
      list, and nothing else that the invariant mentions changes. */
  lemma TeardownRidesOk(r: Registry, s: nat)
    requires Inv(r) && s < |r.sessions|
    ensures RidesOk(Teardown(r, s))
  {
    var r' := Teardown(r, s);
    LoginsKept(r, r');
    forall i | 0 <= i < |r'.rides| ensures RideOk(r', i) {
      assert RideOk(r, i);
    }
  }

  lemma TeardownPendingOk(r: Registry, s: nat)
    requires Wf(r) && PendingOk(r) && s < |r.sessions|
    ensures PendingOk(Teardown(r, s))
  {
    var r' := Teardown(r, s);
    forall t | t in r'.drivers && r'.sessions[t].offerRideId != NoOffer ensures PendingValid(r', t) {
      assert t in r.drivers && r'.sessions[t].user == r.sessions[t].user;
      assert PendingValid(r, t);
    }
  }

  lemma TeardownKeepsInv(r: Registry, s: nat)
    requires Inv(r) && s < |r.sessions|
    ensures Inv(Teardown(r, s))
  {
    var r' := Teardown(r, s);
    LoginsKept(r, r');
    if s in r.drivers {
      assert ActsAsDriver(r, s);
    }
    if s in r.customers {
      assert ActsAsCustomer(r, s);
    }
    assert s !in r'.drivers && s !in r'.customers;
    TeardownRidesOk(r, s);
    TeardownPendingOk(r, s);
  }

  // ---------------------------------------------------------------------
  // The authentication phase
  // ---------------------------------------------------------------------

  /** REGISTER keeps the invariant: a new name differs, ignoring case, from
      every stored one, and the stored role is driver or customer. */
  lemma RegisterKeepsInv(r: Registry, s: nat, name: string, password: string, role: string)
    requires Inv(r) && s < |r.sessions|
    ensures Inv(Register(r, s, name, password, role).reg)
  {
    var r' := Register(r, s, name, password, role).reg;
    if r' != r {
      assert SameLogins(r, r');
      RolesKept(r, r');
      RidesKept(r, r');
      LoginsKept(r, r');
      forall i, j | 0 <= i < j < |r'.users| ensures !EqualsIgnoreCase(r'.users[i].name, r'.users[j].name) {
        if j == |r.users| {
          EqualsIgnoreCaseIsEquivalence(r.users[i].name, name, name);
          assert !NameMatches(r.users[i], name);
        }
      }
      forall t | t in r'.drivers && r'.sessions[t].offerRideId != NoOffer ensures PendingValid(r', t) {
        assert PendingValid(r, t);
      }
    }
  }

  /** The registry after session `s` logs in as user `u`. */
  function LoggedInAs(r: Registry, s: nat, u: nat): Registry
    requires Wf(r) && s < |r.sessions| && u < |r.users|
  {
    AddToRoleList(r.(sessions := r.sessions[s := r.sessions[s].(user := Some(u))]), s)
  }

  lemma LoginRolesOk(r: Registry, s: nat, u: nat)
    requires Inv(r) && s < |r.sessions| && r.sessions[s].user.None? && r.sessions[s].running && u < |r.users|
    ensures RolesOk(LoggedInAs(r, s, u))
  {
    var r' := LoggedInAs(r, s, u);
    assert s !in r.drivers && s !in r.customers;
    assert forall t :: t != s ==> (ActsAsDriver(r', t) <==> ActsAsDriver(r, t));
    assert forall t :: t != s ==> (ActsAsCustomer(r', t) <==> ActsAsCustomer(r, t));
    assert ActsAsDriver(r', s) <==> IsDriver(r.users[u]);
    assert ActsAsCustomer(r', s) <==> IsCustomer(r.users[u]);
    assert NoDup(r'.drivers) && NoDup(r'.customers) by {
      if IsDriver(r.users[u]) {
        assert forall i :: 0 <= i < |r.drivers| ==> r.drivers[i] in r.drivers;
      } else if IsCustomer(r.users[u]) {
        assert forall i :: 0 <= i < |r.customers| ==> r.customers[i] in r.customers;
      }
    }
  }

  lemma LoginRidesOk(r: Registry, s: nat, u: nat)
    requires Inv(r) && s < |r.sessions| && r.sessions[s].user.None? && u < |r.users|
    ensures RidesOk(LoggedInAs(r, s, u))
  {
    var r' := LoggedInAs(r, s, u);
    assert r'.rides == r.rides && r'.users == r.users;
    forall i | 0 <= i < |r'.rides| ensures RideOk(r', i) {
      assert RideOk(r, i);
      assert r.rides[i].customer != s;
      assert r.rides[i].driver != Some(s);
    }
  }

  lemma LoginPendingOk(r: Registry, s: nat, u: nat)
    requires Inv(r) && s < |r.sessions| && r.sessions[s].user.None? && u < |r.users|
    ensures PendingOk(LoggedInAs(r, s, u))
  {
    var r' := LoggedInAs(r, s, u);
    assert r'.rides == r.rides && r'.users == r.users;
    assert r'.sessions[s].offerRideId == NoOffer;
    forall t | t in r'.drivers && r'.sessions[t].offerRideId != NoOffer ensures PendingValid(r', t) {
      assert t != s && t in r.drivers;
      assert PendingValid(r, t);
    }
  }

  /** LOGIN keeps the invariant: the session was in no list and held no
      offer, and joins exactly the list of its role. */
  lemma LoginKeepsInv(r: Registry, s: nat, name: string, password: string)
    requires Inv(r) && s < |r.sessions| && r.sessions[s].user.None? && r.sessions[s].running
    ensures Inv(Login(r, s, name, password).reg)
  {
    match Authenticate(r.users, name, password)
    case None =>
    case Some(u) =>
      assert Login(r, s, name, password).reg == LoggedInAs(r, s, u);
      LoginRolesOk(r, s, u);
      LoginRidesOk(r, s, u);
      LoginPendingOk(r, s, u);
  }

  lemma AuthStepKeepsInv(r: Registry, s: nat, line: string)
    requires Inv(r) && s < |r.sessions| && r.sessions[s].user.None? && r.sessions[s].running
    ensures Inv(AuthStep(r, s, line).reg)
  {
    var t := Fields(line, ':');
    if |t| < 3 {
    } else if EqualsIgnoreCase(t[0], "REGISTER") {
      if |t| >= 4 {
        RegisterKeepsInv(r, s, t[1], t[2], t[3]);
      }
    } else if EqualsIgnoreCase(t[0], "LOGIN") {
      LoginKeepsInv(r, s, t[1], t[2]);
    }
  }

  // ---------------------------------------------------------------------
  // The command phase
  // ---------------------------------------------------------------------

  /** Appending a fresh REQUESTED ride of a customer, with the counter's id,
      keeps the invariant. */
  lemma AppendRideKeepsInv(r: Registry, ride: Ride)
    requires Inv(r) && ride.id == r.nextRideId && ride.status == Requested
    requires !ride.isAssigned && ride.driver.None? && !ride.rated && ActsAsCustomer(r, ride.customer)
    ensures Inv(r.(rides := r.rides + [ride], nextRideId := r.nextRideId + 1))
  {
    var r' := r.(rides := r.rides + [ride], nextRideId := r.nextRideId + 1);
    assert SameLogins(r, r');
    RolesKept(r, r');
    RidesKept(r, r');
    LoginsKept(r, r');
    assert RideOk(r', |r.rides|);
    forall t | t in r'.drivers && r'.sessions[t].offerRideId != NoOffer ensures PendingValid(r', t) {
      assert PendingValid(r, t);
    }
  }

  /** REQUEST keeps the invariant: the new ride takes the next position's id
      and starts REQUESTED, unassigned, for a customer. */
  lemma RequestKeepsInv(r: Registry, s: nat, tokens: seq<string>)
    requires Inv(r) && LoggedIn(r, s)
    ensures Inv(Request(r, s, tokens).reg)
  {
    var rep := Request(r, s, tokens);
    if IsCustomer(UserOf(r, s)) && !HasActiveRide(r.rides, s) && |tokens| >= 3 {
      AppendRideKeepsInv(r, rep.reg.rides[|r.rides|]);
    }
  }

  /** The registry after ride `k` becomes `ride` and session `s` holds a pending offer on it. */
  function WithOffer(r: Registry, s: nat, k: nat, ride: Ride): Registry
    requires k < |r.rides| && s < |r.sessions|
  {
    r.(rides := r.rides[k := ride], sessions := r.sessions[s := r.sessions[s].(offerRideId := k + 1)])
  }

  lemma RecordOfferRidesOk(r: Registry, s: nat, k: nat, ride: Ride)
    requires Inv(r) && LoggedIn(r, s) && k < |r.rides|
    requires ride == r.rides[k].(offers := ride.offers)
    ensures Wf(WithOffer(r, s, k, ride)) && SameLogins(r, WithOffer(r, s, k, ride))
    ensures RidesOk(WithOffer(r, s, k, ride))
  {
    var r' := WithOffer(r, s, k, ride);
    assert SameLogins(r, r');
    LoginsKept(r, r');
    assert RideOk(r, k);
    OneRideChangedOk(r, r', k);
  }


  lemma RecordOfferPendingOk(r: Registry, s: nat, k: nat, ride: Ride)
    requires Wf(r) && PendingOk(r) && LoggedIn(r, s) && k < |r.rides| && !r.rides[k].isAssigned
    requires ride == r.rides[k].(offers := ride.offers)
    requires NameOf(r, s) in ride.offers && r.rides[k].offers.Keys <= ride.offers.Keys
    requires Wf(WithOffer(r, s, k, ride))
    ensures PendingOk(WithOffer(r, s, k, ride))
  {
    var r' := WithOffer(r, s, k, ride);
    assert r'.users == r.users && r'.drivers == r.drivers;
    forall t | t in r'.drivers && r'.sessions[t].offerRideId != NoOffer ensures PendingValid(r', t) {
      assert r'.sessions[t].user == r.sessions[t].user;
      if t != s {
        var p := r.sessions[t].offerRideId;
        assert PendingValid(r, t);
        assert r'.rides[p - 1].offers.Keys >= r.rides[p - 1].offers.Keys;
      }
    }
  }

  /** Recording driver `s`'s offer on the unassigned ride at position `k`
      (its book gaining the driver's name, no entry lost) and making it the
      driver's pending offer keeps the invariant. */
  lemma RecordOfferKeepsInv(r: Registry, s: nat, k: nat, ride: Ride)
    requires Inv(r) && LoggedIn(r, s) && k < |r.rides| && !r.rides[k].isAssigned
    requires ride == r.rides[k].(offers := ride.offers)
    requires NameOf(r, s) in ride.offers && r.rides[k].offers.Keys <= ride.offers.Keys
    ensures Inv(WithOffer(r, s, k, ride))
  {
    var r' := WithOffer(r, s, k, ride);
    RecordOfferRidesOk(r, s, k, ride);
    RolesKept(r, r');
    RecordOfferPendingOk(r, s, k, ride);
  }

  /** OFFER keeps the invariant: the driver's new pending offer names the
      unassigned ride whose book now holds its name, and books only grow. */
  lemma OfferKeepsInv(r: Registry, s: nat, tokens: seq<string>)
    requires Inv(r) && LoggedIn(r, s)
    ensures Inv(Offer(r, s, tokens).reg)
  {
    if OfferAccepted(r, s, tokens) {
      var id := ParseInt(tokens[1]).value;
      var k := FindRide(r.rides, id).value;
      RideAt(r, id);
      assert id == k + 1;
      var ride := AddOffer(r.rides[k], NameOf(r, s), ParseFare(tokens[2]).value);
      RecordOfferKeepsInv(r, s, k, ride);
      assert Offer(r, s, tokens).reg == WithOffer(r, s, k, ride);
    }
  }

  /** The ride `CommitAssignment` stores for driver `d`. */
  function AssignedRide(r: Registry, k: nat, d: nat): Ride
    requires k < |r.rides|
  {
    r.rides[k].(driver := Some(d), status := Assigned)
  }

  lemma CommitAssignmentRidesOk(r: Registry, k: nat, d: nat)
    requires Inv(r) && k < |r.rides| && !r.rides[k].isAssigned && ActsAsDriver(r, d)
    ensures RidesOk(CommitAssignment(r, k, AssignedRide(r, k, d), d, k + 1))
  {
    var r' := CommitAssignment(r, k, AssignedRide(r, k, d), d, k + 1);
    assert SameLogins(r, r');
    LoginsKept(r, r');
    assert RideOk(r, k);
    OneRideChangedOk(r, r', k);
  }


  lemma CommitAssignmentPendingOk(r: Registry, k: nat, d: nat)
    requires Wf(r) && PendingOk(r) && k < |r.rides| && LoggedIn(r, d)
    ensures PendingOk(CommitAssignment(r, k, AssignedRide(r, k, d), d, k + 1))
  {
    var r' := CommitAssignment(r, k, AssignedRide(r, k, d), d, k + 1);
    forall t | t in r.drivers && r'.sessions[t].offerRideId != NoOffer
      ensures r'.sessions[t].offerRideId == r.sessions[t].offerRideId != k + 1
    {
    }
    PendingKept(r, r');
  }

  /** Committing an assignment of the unassigned ride at position `k` to a
      logged-in driver keeps the invariant: the ride gets its driver and the
      flag together, and every pending offer on it is cleared. */
  lemma CommitAssignmentKeepsInv(r: Registry, k: nat, d: nat)
    requires Inv(r) && k < |r.rides| && !r.rides[k].isAssigned && ActsAsDriver(r, d)
    ensures Inv(CommitAssignment(r, k, AssignedRide(r, k, d), d, k + 1))
  {
    var r' := CommitAssignment(r, k, AssignedRide(r, k, d), d, k + 1);
    assert SameLogins(r, r');
    RolesKept(r, r');
    CommitAssignmentRidesOk(r, k, d);
    CommitAssignmentPendingOk(r, k, d);
  }

  /** ASSIGN keeps the invariant. */
  lemma AssignKeepsInv(r: Registry, s: nat, tokens: seq<string>)
    requires Inv(r) && LoggedIn(r, s)
    ensures Inv(Assign(r, s, tokens).reg)
  {
    if AssignAccepted(r, s, tokens) {
      var id := ParseInt(tokens[1]).value;
      var k := FindRide(r.rides, id).value;
      var (ride, d) := AssignDriver(r.rides[k], tokens[2], ConnectedDrivers(r)).value;
      RideAt(r, id);
      assert id == k + 1;
      assert ActsAsDriver(r, d);
      CommitAssignmentKeepsInv(r, k, d);
      assert Assign(r, s, tokens).reg == CommitAssignment(r, k, AssignedRide(r, k, d), d, k + 1);
    }
  }

  /** The registry after ride `k` takes status `st`, session `s` being freed when `free`. */
  function WithRunStatus(r: Registry, k: nat, st: string, s: nat, free: bool): Registry
    requires k < |r.rides| && s < |r.sessions|
  {
    r.(rides := r.rides[k := r.rides[k].(status := st)],
       sessions := if free then r.sessions[s := r.sessions[s].(busy := false)] else r.sessions)
  }

  lemma SetRunStatusRidesOk(r: Registry, k: nat, st: string, s: nat, free: bool)
    requires Inv(r) && k < |r.rides| && r.rides[k].isAssigned && (st == Started || st == Ended)
    requires LoggedIn(r, s)
    ensures RidesOk(WithRunStatus(r, k, st, s, free))
  {
    var r' := WithRunStatus(r, k, st, s, free);
    assert SameLogins(r, r');
    LoginsKept(r, r');
    assert RideOk(r, k);
    OneRideChangedOk(r, r', k);
  }


  lemma SetRunStatusPendingOk(r: Registry, k: nat, st: string, s: nat, free: bool)
    requires Wf(r) && PendingOk(r) && k < |r.rides| && r.rides[k].isAssigned
    requires LoggedIn(r, s)
    ensures Wf(WithRunStatus(r, k, st, s, free)) && PendingOk(WithRunStatus(r, k, st, s, free))
  {
    var r' := WithRunStatus(r, k, st, s, free);
    forall t | t in r.drivers && r'.sessions[t].offerRideId != NoOffer
      ensures r.sessions[t].offerRideId - 1 != k
    {
      assert PendingValid(r, t);
    }
    PendingKept(r, r');
  }

  /** Setting an assigned ride to START or END, possibly freeing a logged-in
      session, keeps the invariant. */
  lemma SetRunStatusKeepsInv(r: Registry, k: nat, st: string, s: nat, free: bool)
    requires Inv(r) && k < |r.rides| && r.rides[k].isAssigned && (st == Started || st == Ended)
    requires LoggedIn(r, s)
    ensures Inv(WithRunStatus(r, k, st, s, free))
  {
    var r' := WithRunStatus(r, k, st, s, free);
    SetRunStatusPendingOk(r, k, st, s, free);
    assert SameLogins(r, r');
    RolesKept(r, r');
    SetRunStatusRidesOk(r, k, st, s, free);
  }

  /** UPDATE keeps the invariant: only a ride with a driver changes, and only
      to START or END. */
  lemma UpdateKeepsInv(r: Registry, s: nat, tokens: seq<string>)
    requires Inv(r) && LoggedIn(r, s)
    ensures Inv(Update(r, s, tokens).reg)
  {
    if UpdateAccepted(r, s, tokens) {
      var k := FindRide(r.rides, ParseInt(tokens[1]).value).value;
      var st := ToUpper(tokens[2]);
      assert RideOk(r, k);
      SetRunStatusKeepsInv(r, k, st, s, st == Ended);
    }
  }

  /** Under the invariant an accepted RATE always finds the ride's driver: a
      ride in END is assigned, and an assigned ride has a driver. So the
      session is never torn down by RATE, and both parties hear the rating. */
  lemma RateFindsDriver(r: Registry, s: nat, tokens: seq<string>)
    requires Inv(r) && LoggedIn(r, s) && RateAccepted(r, s, tokens)
    ensures r.rides[FindRide(r.rides, ParseInt(tokens[1]).value).value].driver.Some?
    ensures Rate(r, s, tokens).reg.sessions == r.sessions
    ensures |Rate(r, s, tokens).out| == 2
  {
    assert RideOk(r, FindRide(r.rides, ParseInt(tokens[1]).value).value);
  }

  /** Committing a rating of an assigned ride keeps the invariant: the ride is
      marked rated and the driver's user keeps its name and role. */
  /** The registry after ride `k` is marked rated and user `u` is replaced by `v`. */
  function WithRating(r: Registry, k: nat, u: nat, v: User): Registry
    requires k < |r.rides| && u < |r.users|
  {
    r.(rides := r.rides[k := r.rides[k].(rated := true)], users := r.users[u := v])
  }

  lemma RatingRidesOk(r: Registry, k: nat, u: nat, v: User)
    requires Inv(r) && k < |r.rides| && r.rides[k].isAssigned && u < |r.users|
    requires v.name == r.users[u].name && v.kind == r.users[u].kind
    ensures SameLogins(r, WithRating(r, k, u, v)) && RidesOk(WithRating(r, k, u, v))
  {
    var r' := WithRating(r, k, u, v);
    assert SameLogins(r, r');
    LoginsKept(r, r');
    assert RideOk(r, k);
    OneRideChangedOk(r, r', k);
  }


  lemma RatingPendingOk(r: Registry, k: nat, u: nat, v: User)
    requires Inv(r) && k < |r.rides| && r.rides[k].isAssigned && u < |r.users|
    requires v.name == r.users[u].name && v.kind == r.users[u].kind
    ensures PendingOk(WithRating(r, k, u, v))
  {
    var r' := WithRating(r, k, u, v);
    forall t | t in r'.drivers && r'.sessions[t].offerRideId != NoOffer ensures PendingValid(r', t) {
      assert PendingValid(r, t);
      assert NameOf(r', t) == NameOf(r, t);
    }
  }

  /** Marking an assigned ride rated and changing a user's rating keeps the invariant. */
  lemma RatingKeepsInv(r: Registry, k: nat, u: nat, v: User)
    requires Inv(r) && k < |r.rides| && r.rides[k].isAssigned && u < |r.users|
    requires v.name == r.users[u].name && v.kind == r.users[u].kind
    ensures Inv(WithRating(r, k, u, v))
  {
    var r' := WithRating(r, k, u, v);
    RatingRidesOk(r, k, u, v);
    RatingPendingOk(r, k, u, v);
    RolesKept(r, r');
    forall i, j | 0 <= i < j < |r'.users| ensures !EqualsIgnoreCase(r'.users[i].name, r'.users[j].name) {
      assert r'.users[i].name == r.users[i].name && r'.users[j].name == r.users[j].name;
    }
    assert forall i :: 0 <= i < |r'.users| ==> r'.users[i].kind == r.users[i].kind;
  }

  lemma CommitRatingKeepsInv(r: Registry, s: nat, k: nat, b: int, c: int, x: int, comment: string)
    requires Inv(r) && LoggedIn(r, s) && k < |r.rides| && ScoresInRange(b, c, x) && r.rides[k].isAssigned
    ensures Inv(CommitRating(r, s, k, b, c, x, comment).reg)
  {
    assert RideOk(r, k);
    var u := r.sessions[r.rides[k].driver.value].user.value;
    var v := AddRating(r.users[u], Overall(b, c, x));
    assert CommitRating(r, s, k, b, c, x, comment).reg == WithRating(r, k, u, v);
    RatingKeepsInv(r, k, u, v);
  }

  /** RATE keeps the invariant. */
  lemma RateKeepsInv(r: Registry, s: nat, tokens: seq<string>)
    requires Inv(r) && LoggedIn(r, s)
    ensures Inv(Rate(r, s, tokens).reg)
  {
    if RateAccepted(r, s, tokens) {
      var k := FindRide(r.rides, ParseInt(tokens[1]).value).value;
      assert RideOk(r, k);
      CommitRatingKeepsInv(r, s, k, ParseInt(tokens[2]).value, ParseInt(tokens[3]).value,
                           ParseInt(tokens[4]).value, tokens[5]);
    }
  }

  lemma CommitCancelRidesOk(r: Registry, k: nat)
    requires Inv(r) && k < |r.rides|
    ensures RidesOk(CommitCancel(r, k))
  {
    var r' := CommitCancel(r, k);
    assert SameLogins(r, r');
    LoginsKept(r, r');
    assert RideOk(r, k);
    OneRideChangedOk(r, r', k);
  }


  lemma CommitCancelPendingOk(r: Registry, k: nat)
    requires Wf(r) && PendingOk(r) && k < |r.rides|
    ensures PendingOk(CommitCancel(r, k))
  {
    var r' := CommitCancel(r, k);
    forall t | t in r.drivers && r'.sessions[t].offerRideId != NoOffer
      ensures r'.sessions[t].offerRideId == r.sessions[t].offerRideId
    {
    }
    forall i | 0 <= i < |r.rides|
      ensures r'.rides[i].isAssigned == r.rides[i].isAssigned && r'.rides[i].offers == r.rides[i].offers
    {
    }
    PendingKept(r, r');
  }

  /** Cancelling any ride keeps the invariant: CANCELLED is allowed whatever
      the flags, and pending offers are only cleared. */
  lemma CommitCancelKeepsInv(r: Registry, k: nat)
    requires Inv(r) && k < |r.rides|
    ensures Inv(CommitCancel(r, k))
  {
    var r' := CommitCancel(r, k);
    assert SameLogins(r, r');
    RolesKept(r, r');
    CommitCancelRidesOk(r, k);
    CommitCancelPendingOk(r, k);
  }

  /** CANCEL keeps the invariant. */
  lemma CancelKeepsInv(r: Registry, s: nat)
    requires Inv(r) && LoggedIn(r, s)
    ensures Inv(Cancel(r, s).reg)
  {
    if IsCustomer(UserOf(r, s)) && LatestActive(r.rides, s).Some? {
      CommitCancelKeepsInv(r, LatestActive(r.rides, s).value);
    }
  }

  lemma DisconnectKeepsInv(r: Registry, s: nat)
    requires Inv(r) && LoggedIn(r, s)
    ensures Inv(Disconnect(r, s).reg)
  {
    if !InOngoingRide(r.rides, s) {
      TeardownKeepsInv(r, s);
    }
  }

  lemma CommandStepKeepsInv(r: Registry, s: nat, line: string)
    requires Inv(r) && LoggedIn(r, s)
    ensures Inv(CommandStep(r, s, line).reg)
  {
    var tokens := Tokens(line, ':');
    if |tokens| > 0 {
      var verb := ToUpper(tokens[0]);
      if verb == "REQUEST" {
        RequestKeepsInv(r, s, tokens);
      } else if verb == "VIEW" {
      } else if verb == "OFFER" {
        OfferKeepsInv(r, s, tokens);
      } else if verb == "ASSIGN" {
        AssignKeepsInv(r, s, tokens);
      } else if verb == "UPDATE" {
        UpdateKeepsInv(r, s, tokens);
      } else if verb == "RATE" {
        RateKeepsInv(r, s, tokens);
      } else if verb == "CANCEL" {
        CancelKeepsInv(r, s);
      } else if verb == "STATS" {
      } else if verb == "DISCONNECT" {
        DisconnectKeepsInv(r, s);
      }
    }
  }

  /** Every line read keeps the invariant. */
  lemma StepKeepsInv(r: Registry, s: nat, line: string)
    requires Inv(r) && s < |r.sessions|
    ensures Inv(Step(r, s, line).reg)
  {
    if !r.sessions[s].running {
    } else if r.sessions[s].user.None? {
      AuthStepKeepsInv(r, s, line);
    } else {
      CommandStepKeepsInv(r, s, line);
    }
  }

  /** Every event keeps the invariant. */
  lemma ApplyKeepsInv(r: Registry, e: Event)
    requires Inv(r)
    ensures Inv(Apply(r, e))
  {
    match e
    case Open => ConnectKeepsInv(r);
    case Line(s, text) =>
      if s < |r.sessions| {
        StepKeepsInv(r, s, text);
      }
    case Close(s) =>
      if s < |r.sessions| && r.sessions[s].running {
        TeardownKeepsInv(r, s);
      }
  }

  /** Every registry reachable from the seeded one satisfies the invariant. */
  lemma {:induction false} RunKeepsInv(events: seq<Event>)
    ensures Inv(Run(events))
    decreases |events|
  {
    if |events| == 0 {
      InitInv();
    } else {
      RunKeepsInv(events[..|events| - 1]);
      ApplyKeepsInv(Run(events[..|events| - 1]), events[|events| - 1]);
    }
  }

  // ---------------------------------------------------------------------
  // What the invariant guarantees
  // ---------------------------------------------------------------------

  /** No session is both a connected driver and a connected customer. */
  lemma RolesDisjoint(r: Registry, t: nat)
    requires Inv(r)
    ensures !(t in r.drivers && t in r.customers)
  {
  }

  /** With unique names, LOGIN either finds the one user carrying the name
      (when the password is that user's) or nobody. */
  lemma LoginFindsTheNamedUser(r: Registry, name: string, password: string, u: nat)
    requires Inv(r) && u < |r.users| && NameMatches(r.users[u], name)
    ensures Authenticate(r.users, name, password) == if r.users[u].password == password then Some(u) else None
  {
    AuthenticateUnique(r.users, name, password, u);
  }

  /** The STATS buckets, together with the cancelled rides, account for every
      ride exactly once. */
  lemma StatsAccountForEveryRide(r: Registry, s: nat)
    requires Inv(r) && LoggedIn(r, s) && IsAdmin(UserOf(r, s))
    ensures
      var b := Stats(r, s).out[0].body;
      b.requested + b.assignedCount + b.started + b.ended + CountStatus(r.rides, Cancelled) == b.rides
  {
    forall j | 0 <= j < |r.rides| ensures ValidStatus(r.rides[j].status) {
      assert RideOk(r, j);
    }
    StatusCountsAddUp(r.rides);
  }

  /** A ride is assigned at most once: after an ASSIGN succeeds, the next
      ASSIGN naming the same ride id, from any session, is refused and changes
      nothing. Later commands keep the flag set (`Evolution.RunEvolves`), and
      `Protocol.Assign` refuses any ride whose flag is set. */
  lemma AssignOnce(r: Registry, s: nat, tokens: seq<string>, s2: nat, tokens2: seq<string>)
    requires Inv(r) && LoggedIn(r, s) && AssignAccepted(r, s, tokens)
    requires var r' := Assign(r, s, tokens).reg; LoggedIn(r', s2)
    requires |tokens2| >= 3 && ParseInt(tokens2[1]) == ParseInt(tokens[1])
    ensures
      var r' := Assign(r, s, tokens).reg;
      Assign(r', s2, tokens2).reg == r'
  {
    var id := ParseInt(tokens[1]).value;
    var k := FindRide(r.rides, id).value;
    var r' := Assign(r, s, tokens).reg;
    AssignKeepsInv(r, s, tokens);
    RideAt(r, id);
    RideAt(r', id);
    assert r'.rides[k].isAssigned;
    assert !AssignAccepted(r', s2, tokens2);
  }

  /** A ride is rated at most once: after a RATE succeeds, the next RATE
      naming the same ride id, from any session, is refused and changes
      nothing. Later commands keep the flag set (`Evolution.RunEvolves`), and
      `Protocol.Rate` refuses any ride whose flag is set. */
  lemma RateOnce(r: Registry, s: nat, tokens: seq<string>, s2: nat, tokens2: seq<string>)
    requires Inv(r) && LoggedIn(r, s) && RateAccepted(r, s, tokens)
    requires var r' := Rate(r, s, tokens).reg; LoggedIn(r', s2)
    requires |tokens2| >= 6 && ParseInt(tokens2[1]) == ParseInt(tokens[1])
    ensures
      var r' := Rate(r, s, tokens).reg;
      Rate(r', s2, tokens2).reg == r'
  {
    var id := ParseInt(tokens[1]).value;
    var k := FindRide(r.rides, id).value;
    var r' := Rate(r, s, tokens).reg;
    RateKeepsInv(r, s, tokens);
    RateFindsDriver(r, s, tokens);
    RideAt(r, id);
    RideAt(r', id);
    assert r'.rides[k].rated;
    assert !RateAccepted(r', s2, tokens2);
  }

  /** Every ride in END has an assigned driver, logged in as a driver: the
      session RATE dereferences is always there. */
  lemma EndedRideHasDriver(r: Registry, i: nat)
    requires Inv(r) && i < |r.rides| && r.rides[i].status == Ended
    ensures r.rides[i].isAssigned && r.rides[i].driver.Some? && ActsAsDriver(r, r.rides[i].driver.value)
  {
    assert RideOk(r, i);
  }
}
