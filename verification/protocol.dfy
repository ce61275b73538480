/**
 * The per-connection command state machine of the client handler: one line
 * read from a session is one atomic step over the registry. While the
 * session has no user only REGISTER and LOGIN are understood; afterwards the
 * command verbs are dispatched on the upper-cased first field.
 */
module Protocol {
  import opened Wrappers
  import opened Text
  import opened Numerals
  import opened Users
  import opened Rides
  import opened Registry

  /** A refused command: the registry is untouched and the issuer gets one error. */
  function Reject(r: Registry, s: nat, e: ErrorKind): Reply {
    Reply(r, [Message(s, Error(e))])
  }

  // ---------------------------------------------------------------------
  // Authentication phase
  // ---------------------------------------------------------------------

  /** REGISTER. Asking for the admin role (in any case) is refused, any role
      other than driver becomes customer, and a name already present ignoring
      case is refused. A new user is appended otherwise. The session is never
      logged in by this command. */
  function Register(r: Registry, s: nat, name: string, password: string, role: string): (rep: Reply)
    requires Wf(r) && s < |r.sessions|
    ensures Wf(rep.reg)
    ensures rep.reg.sessions == r.sessions
    ensures EqualsIgnoreCase(role, "admin") ==> rep == Reject(r, s, AdminRegistration)
    ensures !EqualsIgnoreCase(role, "admin") && UserExists(r.users, name) ==> rep == Reject(r, s, UsernameTaken)
    ensures !EqualsIgnoreCase(role, "admin") && !UserExists(r.users, name) ==>
      && |rep.reg.users| == |r.users| + 1
      && rep.reg == r.(users := r.users + [rep.reg.users[|r.users|]])
      && rep.reg.users[|r.users|].name == name
      && rep.reg.users[|r.users|].password == password
      && rep.reg.users[|r.users|].kind == (if EqualsIgnoreCase(role, "driver") then "driver" else "customer")
      && rep.reg.users[|r.users|].ratingCount == 0
      && rep.out == [Message(s, Registered(name)), Message(s, PleaseLogIn)]
  {
    if EqualsIgnoreCase(role, "admin") then Reject(r, s, AdminRegistration)
    else
      var kind := if EqualsIgnoreCase(role, "driver") then role else "customer";
      if UserExists(r.users, name) then Reject(r, s, UsernameTaken)
      else
        var u := NewUser(name, password, kind);
        StoredKind(role);
        Reply(r.(users := r.users + [u]), [Message(s, Registered(name)), Message(s, PleaseLogIn)])
  }

  /** What the User constructor stores for the role REGISTER passes it. */
  lemma StoredKind(role: string)
    ensures EqualsIgnoreCase(role, "driver") ==> ToLower(role) == "driver"
    ensures ToLower("customer") == "customer"
  {
    EqualsIgnoreCaseIffSameFold(role, "driver");
    LowerCaseIsFixed("driver");
    LowerCaseIsFixed("customer");
  }

  /** LOGIN. The first user matching the name (ignoring case) and the password
      (exactly) is bound to the session, which then joins the driver or the
      customer list according to the role; an admin joins neither. Without a
      match the session stays unauthenticated. */
  function Login(r: Registry, s: nat, name: string, password: string): (rep: Reply)
    requires Wf(r) && s < |r.sessions| && r.sessions[s].user.None?
    ensures Wf(rep.reg)
    ensures Authenticate(r.users, name, password).None? ==> rep == Reject(r, s, BadCredentials)
    ensures Authenticate(r.users, name, password).Some? ==>
      var u := Authenticate(r.users, name, password).value;
      && |rep.reg.sessions| == |r.sessions|
      && rep.reg.sessions == r.sessions[s := r.sessions[s].(user := Some(u))]
      && rep.reg.users == r.users && rep.reg.rides == r.rides && rep.reg.nextRideId == r.nextRideId
      && rep.reg.drivers == (if IsDriver(r.users[u]) then r.drivers + [s] else r.drivers)
      && rep.reg.customers == (if !IsDriver(r.users[u]) && IsCustomer(r.users[u]) then r.customers + [s] else r.customers)
      && rep.out == [Message(s, Welcome(name, r.users[u].kind))]
  {
    match Authenticate(r.users, name, password)
    case None => Reject(r, s, BadCredentials)
    case Some(u) =>
      var r1 := r.(sessions := r.sessions[s := r.sessions[s].(user := Some(u))]);
      Reply(AddToRoleList(r1, s), [Message(s, Welcome(name, r.users[u].kind))])
  }

  /** One line read before login, split on every ':' (`split(":", -1)`). Only
      a LOGIN whose credentials match logs the session in. */
  function AuthStep(r: Registry, s: nat, line: string): (rep: Reply)
    requires Wf(r) && s < |r.sessions| && r.sessions[s].user.None?
    ensures Wf(rep.reg) && |rep.reg.sessions| == |r.sessions|
    ensures rep.reg.sessions[s].user.Some? ==>
      var t := Fields(line, ':');
      |t| >= 3 && EqualsIgnoreCase(t[0], "LOGIN") && !EqualsIgnoreCase(t[0], "REGISTER")
      && rep.reg.sessions[s].user == Authenticate(r.users, t[1], t[2])
    ensures |Fields(line, ':')| < 3 ==> rep == Reject(r, s, BadAuthFormat)
    ensures var t := Fields(line, ':');
      |t| >= 3 && EqualsIgnoreCase(t[0], "REGISTER") ==>
        rep == (if |t| < 4 then Reject(r, s, MissingType) else Register(r, s, t[1], t[2], t[3]))
    ensures var t := Fields(line, ':');
      |t| >= 3 && !EqualsIgnoreCase(t[0], "REGISTER") && EqualsIgnoreCase(t[0], "LOGIN") ==>
        rep == Login(r, s, t[1], t[2])
    ensures var t := Fields(line, ':');
      |t| >= 3 && !EqualsIgnoreCase(t[0], "REGISTER") && !EqualsIgnoreCase(t[0], "LOGIN") ==>
        rep == Reject(r, s, UnknownAuthCommand)
  {
    var t := Fields(line, ':');
    if |t| < 3 then Reject(r, s, BadAuthFormat)
    else if EqualsIgnoreCase(t[0], "REGISTER") then
      if |t| < 4 then Reject(r, s, MissingType) else Register(r, s, t[1], t[2], t[3])
    else if EqualsIgnoreCase(t[0], "LOGIN") then Login(r, s, t[1], t[2])
    else Reject(r, s, UnknownAuthCommand)
  }

  // ---------------------------------------------------------------------
  // Command phase
  // ---------------------------------------------------------------------

  /** REQUEST:pickup:destination. A customer with an active ride (not END and
      not CANCELLED) is refused before the fields are looked at. Otherwise one
      REQUESTED ride with the next id is appended, the customer gets its id and
      the connected drivers that are not busy hear of it. */
  function Request(r: Registry, s: nat, tokens: seq<string>): (rep: Reply)
    requires Wf(r) && LoggedIn(r, s)
    ensures Wf(rep.reg)
    ensures !IsCustomer(UserOf(r, s)) ==> rep == Reject(r, s, WrongRole)
    ensures IsCustomer(UserOf(r, s)) && HasActiveRide(r.rides, s) ==> rep == Reject(r, s, ActiveRideExists)
    ensures IsCustomer(UserOf(r, s)) && !HasActiveRide(r.rides, s) && |tokens| < 3 ==> rep == Reject(r, s, BadFormat)
    ensures IsCustomer(UserOf(r, s)) && !HasActiveRide(r.rides, s) && |tokens| >= 3 ==>
      && |rep.reg.rides| == |r.rides| + 1
      && rep.reg == r.(rides := r.rides + [rep.reg.rides[|r.rides|]], nextRideId := r.nextRideId + 1)
      && var ride := rep.reg.rides[|r.rides|];
      && ride.id == r.nextRideId && ride.pickup == tokens[1] && ride.destination == tokens[2]
      && ride.customer == s && ride.status == Requested && !ride.isAssigned && ride.driver.None?
      && !ride.rated && ride.offers == map[]
      && rep.out == [Message(s, RequestReceived(ride.id))] + Broadcast(r, ride)
  {
    if !IsCustomer(UserOf(r, s)) then Reject(r, s, WrongRole)
    else if HasActiveRide(r.rides, s) then Reject(r, s, ActiveRideExists)
    else if |tokens| < 3 then Reject(r, s, BadFormat)
    else
      var ride := NewRide(r.nextRideId, tokens[1], tokens[2], s);
      Reply(OpenRide(r, ride), [Message(s, RequestReceived(ride.id))] + Broadcast(r, ride))
  }

  /** The registry after an accepted REQUEST: the ride is appended and the id
      counter moves on. */
  function OpenRide(r: Registry, ride: Ride): (r': Registry)
    requires Wf(r) && LoggedIn(r, ride.customer) && ride.driver.None?
    ensures Wf(r')
  {
    r.(rides := r.rides + [ride], nextRideId := r.nextRideId + 1)
  }

  /** VIEW. Read-only: a customer is told the status of its latest active ride
      (see `LatestActive`), or that there is none. */
  function View(r: Registry, s: nat): (rep: Reply)
    requires Wf(r) && LoggedIn(r, s)
    ensures rep.reg == r && |rep.out| == 1 && rep.out[0].to == s
    ensures !IsCustomer(UserOf(r, s)) ==> rep.out[0].body == Error(WrongRole)
    ensures IsCustomer(UserOf(r, s)) ==>
      (rep.out[0].body == NoActiveRide <==> !HasActiveRide(r.rides, s))
    ensures IsCustomer(UserOf(r, s)) && HasActiveRide(r.rides, s) ==> rep.out[0].body.RideStatus?
    ensures IsCustomer(UserOf(r, s)) && rep.out[0].body.RideStatus? ==>
      exists k :: 0 <= k < |r.rides| && OwnsActive(r.rides[k], s)
        && rep.out[0].body == RideStatus(r.rides[k].id, r.rides[k].status)
        && forall j :: 0 <= j < |r.rides| && OwnsActive(r.rides[j], s) ==> r.rides[j].id <= r.rides[k].id
  {
    if !IsCustomer(UserOf(r, s)) then Reject(r, s, WrongRole)
    else
      match LatestActive(r.rides, s)
      case None => Reply(r, [Message(s, NoActiveRide)])
      case Some(k) => Reply(r, [Message(s, RideStatus(r.rides[k].id, r.rides[k].status))])
  }

  /** The guards OFFER checks, in order: a driver, no pending offer, enough
      fields, a numeric ride id and fare, and a ride with that id that is not
      assigned. */
  ghost predicate OfferAccepted(r: Registry, s: nat, tokens: seq<string>)
    requires Wf(r) && LoggedIn(r, s)
  {
    && IsDriver(UserOf(r, s)) && r.sessions[s].offerRideId == NoOffer
    && |tokens| >= 3 && ParseInt(tokens[1]).Some? && ParseFare(tokens[2]).Some?
    && var k := FindRide(r.rides, ParseInt(tokens[1]).value);
    && k.Some? && !r.rides[k.value].isAssigned
  }

  /** The state change of an accepted OFFER of `fare` on ride `k` (id `id`):
      the fare is in the ride's offer book under the driver's exact name,
      other entries kept, and the driver's pending offer is this ride; the
      customer is sent the whole book. */
  function CommitOffer(r: Registry, s: nat, k: nat, id: int, fare: real): (rep: Reply)
    requires Wf(r) && LoggedIn(r, s) && k < |r.rides|
    ensures Wf(rep.reg)
    ensures |rep.reg.rides| == |r.rides| && |rep.reg.sessions| == |r.sessions|
    ensures rep.reg.rides[k].offers == r.rides[k].offers[NameOf(r, s) := fare]
    ensures rep.reg.rides[k] == r.rides[k].(offers := rep.reg.rides[k].offers)
    ensures forall j :: 0 <= j < |r.rides| && j != k ==> rep.reg.rides[j] == r.rides[j]
    ensures rep.reg.sessions[s] == r.sessions[s].(offerRideId := id)
    ensures forall t :: 0 <= t < |r.sessions| && t != s ==> rep.reg.sessions[t] == r.sessions[t]
    ensures rep.reg.users == r.users && rep.reg.drivers == r.drivers && rep.reg.customers == r.customers
    ensures rep.reg.nextRideId == r.nextRideId
    ensures rep.out == [Message(s, OfferSent(id)), Message(r.rides[k].customer, Offers(id, rep.reg.rides[k].offers))]
  {
    var ride := AddOffer(r.rides[k], NameOf(r, s), fare);
    Reply(r.(rides := r.rides[k := ride], sessions := r.sessions[s := r.sessions[s].(offerRideId := id)]),
          [Message(s, OfferSent(id)), Message(ride.customer, Offers(id, ride.offers))])
  }

  /** OFFER:rideId:fare. A driver with a pending offer is refused before the
      fields are looked at; so is an offer on a missing or assigned ride; a
      refused offer changes nothing. On success the state changes as
      `CommitOffer` says, and the driver's fare is in the book. */
  function Offer(r: Registry, s: nat, tokens: seq<string>): (rep: Reply)
    requires Wf(r) && LoggedIn(r, s)
    ensures Wf(rep.reg)
    ensures !IsDriver(UserOf(r, s)) ==> rep == Reject(r, s, WrongRole)
    ensures IsDriver(UserOf(r, s)) && r.sessions[s].offerRideId != NoOffer ==>
      rep == Reject(r, s, PendingOffer(r.sessions[s].offerRideId))
    ensures !OfferAccepted(r, s, tokens) ==>
      rep.reg == r && |rep.out| == 1 && rep.out[0].to == s && rep.out[0].body.Error?
    ensures OfferAccepted(r, s, tokens) ==>
      var id := ParseInt(tokens[1]).value;
      var fare := ParseFare(tokens[2]).value;
      var k := FindRide(r.rides, id).value;
      && rep == CommitOffer(r, s, k, id, fare)
      && rep.reg.rides[k].offers[NameOf(r, s)] == fare
      && rep.reg.sessions[s].offerRideId == id
  {
    if !IsDriver(UserOf(r, s)) then Reject(r, s, WrongRole)
    else if r.sessions[s].offerRideId != NoOffer then Reject(r, s, PendingOffer(r.sessions[s].offerRideId))
    else if |tokens| < 3 then Reject(r, s, BadFormat)
    else
      match (ParseInt(tokens[1]), ParseFare(tokens[2]))
      case (Some(id), Some(fare)) =>
        (match FindRide(r.rides, id)
         case Some(k) =>
           if r.rides[k].isAssigned then Reject(r, s, RideUnavailable)
           else CommitOffer(r, s, k, id, fare)
         case None => Reject(r, s, RideUnavailable))
      case _ => Reject(r, s, BadNumber)
  }

  /** The guards ASSIGN checks, in order: a customer, enough fields, a numeric
      ride id, a ride with that id requested by this session, not yet assigned,
      and `assignDriver` finding the named driver. */
  ghost predicate AssignAccepted(r: Registry, s: nat, tokens: seq<string>)
    requires Wf(r) && LoggedIn(r, s)
  {
    && IsCustomer(UserOf(r, s)) && |tokens| >= 3 && ParseInt(tokens[1]).Some?
    && var k := FindRide(r.rides, ParseInt(tokens[1]).value);
    && k.Some? && r.rides[k.value].customer == s && !r.rides[k.value].isAssigned
    && AssignDriver(r.rides[k.value], tokens[2], ConnectedDrivers(r)).Some?
  }

  /** The state change of a successful ASSIGN: ride `k` (id `id`) becomes
      `ride` with the `assigned` flag set, driver session `d` becomes busy, and
      every connected driver whose pending offer is `id` has it cleared;
      nothing else changes. */
  function CommitAssignment(r: Registry, k: nat, ride: Ride, d: nat, id: int): (r': Registry)
    requires Wf(r) && k < |r.rides| && LoggedIn(r, d)
    requires ride.driver == Some(d) && ride.customer == r.rides[k].customer
    ensures Wf(r')
    ensures |r'.rides| == |r.rides| && |r'.sessions| == |r.sessions|
    ensures r'.rides == r.rides[k := ride.(isAssigned := true)]
    ensures r'.sessions[d].busy
    ensures forall t :: 0 <= t < |r.sessions| && t in r.drivers && r.sessions[t].offerRideId == id ==>
      r'.sessions[t].offerRideId == NoOffer
    ensures forall t :: 0 <= t < |r.sessions| && !(t in r.drivers && r.sessions[t].offerRideId == id) ==>
      r'.sessions[t].offerRideId == r.sessions[t].offerRideId
    ensures forall t :: 0 <= t < |r.sessions| && t != d ==> r'.sessions[t].busy == r.sessions[t].busy
    ensures forall t :: 0 <= t < |r.sessions| ==>
      r'.sessions[t].user == r.sessions[t].user && r'.sessions[t].running == r.sessions[t].running
    ensures r'.users == r.users && r'.drivers == r.drivers && r'.customers == r.customers
    ensures r'.nextRideId == r.nextRideId
  {
    var r1 := r.(rides := r.rides[k := ride.(isAssigned := true)],
                 sessions := r.sessions[d := r.sessions[d].(busy := true)]);
    ClearPending(r1, id)
  }

  /** ASSIGN:rideId:driverName. Refused, changing nothing, unless the caller
      requested the ride, the ride is not yet assigned and `assignDriver`
      succeeds (the name is a key of the offer book and a connected driver has
      it, ignoring case). On success the state changes as `CommitAssignment`
      says, for the driver `assignDriver` chose, and that driver is told. */
  function Assign(r: Registry, s: nat, tokens: seq<string>): (rep: Reply)
    requires Wf(r) && LoggedIn(r, s)
    ensures Wf(rep.reg)
    ensures !IsCustomer(UserOf(r, s)) ==> rep == Reject(r, s, WrongRole)
    ensures |tokens| >= 3 && ParseInt(tokens[1]).Some? && FindRide(r.rides, ParseInt(tokens[1]).value).Some? ==>
      var k := FindRide(r.rides, ParseInt(tokens[1]).value).value;
      && (IsCustomer(UserOf(r, s)) && r.rides[k].customer != s ==> rep == Reject(r, s, NotRideOwner))
      && (IsCustomer(UserOf(r, s)) && r.rides[k].customer == s && r.rides[k].isAssigned ==> rep == Reject(r, s, AlreadyAssigned))
    ensures !AssignAccepted(r, s, tokens) ==>
      rep.reg == r && |rep.out| == 1 && rep.out[0].to == s && rep.out[0].body.Error?
    ensures AssignAccepted(r, s, tokens) ==>
      var id := ParseInt(tokens[1]).value;
      var k := FindRide(r.rides, id).value;
      var (ride, d) := AssignDriver(r.rides[k], tokens[2], ConnectedDrivers(r)).value;
      && d in r.drivers && LoggedIn(r, d) && EqualsIgnoreCase(NameOf(r, d), tokens[2])
      && ride.driver == Some(d) && ride.status == Assigned
      && rep.reg == CommitAssignment(r, k, ride, d, id)
      && rep.out == [Message(s, RideAssigned(tokens[2])), Message(d, AssignedNotice(id))]
  {
    if !IsCustomer(UserOf(r, s)) then Reject(r, s, WrongRole)
    else if |tokens| < 3 then Reject(r, s, BadFormat)
    else
      match ParseInt(tokens[1])
      case None => Reject(r, s, BadNumber)
      case Some(id) =>
        match FindRide(r.rides, id)
        case None => Reject(r, s, NotRideOwner)
        case Some(k) =>
          if r.rides[k].customer != s then Reject(r, s, NotRideOwner)
          else if r.rides[k].isAssigned then Reject(r, s, AlreadyAssigned)
          else
            match AssignDriver(r.rides[k], tokens[2], ConnectedDrivers(r))
            case None => Reject(r, s, DriverNotOffered)
            case Some((ride, d)) =>
              var kk :| IsFirstNamed(ConnectedDrivers(r), tokens[2], kk) && d == ConnectedDrivers(r)[kk].0;
              assert d == r.drivers[kk] && d in r.drivers && LoggedIn(r, d);
              Reply(CommitAssignment(r, k, ride, d, id), [Message(s, RideAssigned(tokens[2])), Message(d, AssignedNotice(id))])
  }

  /** The ride at position `k` has a driver whose username equals the
      caller's, ignoring case: the identity check UPDATE performs. */
  predicate DrivenBy(r: Registry, k: nat, s: nat)
    requires Wf(r) && k < |r.rides| && LoggedIn(r, s)
  {
    r.rides[k].driver.Some? && EqualsIgnoreCase(NameOf(r, r.rides[k].driver.value), NameOf(r, s))
  }

  /** The guards UPDATE checks, in order: a driver, enough fields, a numeric
      ride id, START or END in any case, an existing ride, the caller's name
      being the assigned driver's, START only when not already START, and END
      only from START. */
  ghost predicate UpdateAccepted(r: Registry, s: nat, tokens: seq<string>)
    requires Wf(r) && LoggedIn(r, s)
  {
    && IsDriver(UserOf(r, s)) && |tokens| >= 3 && ParseInt(tokens[1]).Some?
    && var st := ToUpper(tokens[2]);
    && (st == Started || st == Ended)
    && var k := FindRide(r.rides, ParseInt(tokens[1]).value);
    && k.Some? && DrivenBy(r, k.value, s)
    && !(st == Started && r.rides[k.value].status == Started)
    && !(st == Ended && r.rides[k.value].status != Started)
  }

  /** UPDATE:rideId:START|END by the assigned driver. START is refused exactly
      when the ride is already in START (so an END or CANCELLED ride can be
      started again); END is refused unless the ride is in START. A refused
      update changes nothing. On success the status is stored, the customer is
      told, and after END the issuing session is no longer busy. */
  function Update(r: Registry, s: nat, tokens: seq<string>): (rep: Reply)
    requires Wf(r) && LoggedIn(r, s)
    ensures Wf(rep.reg)
    ensures !IsDriver(UserOf(r, s)) ==> rep == Reject(r, s, WrongRole)
    ensures !UpdateAccepted(r, s, tokens) ==>
      rep.reg == r && |rep.out| == 1 && rep.out[0].to == s && rep.out[0].body.Error?
    ensures UpdateAccepted(r, s, tokens) ==>
      var id := ParseInt(tokens[1]).value;
      var st := ToUpper(tokens[2]);
      var k := FindRide(r.rides, id).value;
      && rep.reg.rides == r.rides[k := r.rides[k].(status := st)]
      && rep.reg.sessions == (if st == Ended then r.sessions[s := r.sessions[s].(busy := false)] else r.sessions)
      && rep.reg == r.(rides := rep.reg.rides, sessions := rep.reg.sessions)
      && rep.out == [Message(r.rides[k].customer, StatusNotice(id, st)), Message(s, StatusUpdated(id, st))]
  {
    if !IsDriver(UserOf(r, s)) then Reject(r, s, WrongRole)
    else if |tokens| < 3 then Reject(r, s, BadFormat)
    else
      match ParseInt(tokens[1])
      case None => Reject(r, s, BadNumber)
      case Some(id) =>
        var st := ToUpper(tokens[2]);
        if st != Started && st != Ended then Reject(r, s, BadStatus)
        else
          match FindRide(r.rides, id)
          case None => Reject(r, s, RideNotFound)
          case Some(k) =>
            var ride := r.rides[k];
            if !DrivenBy(r, k, s) then Reject(r, s, NotAssignedDriver)
            else if st == Started && ride.status == Started then Reject(r, s, AlreadyStarted)
            else if st == Ended && ride.status != Started then Reject(r, s, NotStarted)
            else
              UpdateStatusKeepsUpperCase(ride, st);
              Reply(CommitStatus(r, s, k, st),
                    [Message(ride.customer, StatusNotice(id, st)), Message(s, StatusUpdated(id, st))])
  }

  /** The registry after an accepted UPDATE: the ride takes the new status,
      and END frees the driver. */
  function CommitStatus(r: Registry, s: nat, k: nat, st: string): (r': Registry)
    requires Wf(r) && s < |r.sessions| && k < |r.rides| && (st == Started || st == Ended)
    ensures Wf(r')
  {
    UpdateStatusKeepsUpperCase(r.rides[k], st);
    var sessions := if st == Ended then r.sessions[s := r.sessions[s].(busy := false)] else r.sessions;
    r.(rides := r.rides[k := UpdateStatus(r.rides[k], st)], sessions := sessions)
  }

  /** Which error a refused UPDATE reports: a status other than START or END,
      an unknown ride, a caller who is not the assigned driver, START on a
      ride already in START, END on a ride not in START. START is therefore
      refused exactly when the ride is already in START. */
  lemma UpdateRefusals(r: Registry, s: nat, tokens: seq<string>)
    requires Wf(r) && LoggedIn(r, s)
    requires IsDriver(UserOf(r, s)) && |tokens| >= 3 && ParseInt(tokens[1]).Some?
    ensures
      var rep := Update(r, s, tokens);
      var st := ToUpper(tokens[2]);
      var k := FindRide(r.rides, ParseInt(tokens[1]).value);
      && (st != Started && st != Ended ==> rep == Reject(r, s, BadStatus))
      && ((st == Started || st == Ended) && k.None? ==> rep == Reject(r, s, RideNotFound))
      && ((st == Started || st == Ended) && k.Some? && !DrivenBy(r, k.value, s) ==> rep == Reject(r, s, NotAssignedDriver))
      && (st == Started && k.Some? && DrivenBy(r, k.value, s) ==>
            (rep.reg == r <==> r.rides[k.value].status == Started))
      && (st == Ended && k.Some? && DrivenBy(r, k.value, s) ==>
            (rep.reg == r <==> r.rides[k.value].status != Started))
  {
    var st := ToUpper(tokens[2]);
    var k := FindRide(r.rides, ParseInt(tokens[1]).value);
    if (st == Started || st == Ended) && k.Some? && DrivenBy(r, k.value, s) {
      var rep := Update(r, s, tokens);
      if UpdateAccepted(r, s, tokens) {
        assert rep.reg.rides[k.value].status == st;
      }
    }
  }

  /** The overall score of a rating: the mean of the three scores, truncated
      as the cast of a non-negative double to int does. */
  function Overall(behaviour: int, car: int, ride: int): (v: int)
    requires 1 <= behaviour <= 5 && 1 <= car <= 5 && 1 <= ride <= 5
    ensures 1 <= v <= 5
    ensures v as real <= (behaviour + car + ride) as real / 3.0 < v as real + 1.0
  {
    (behaviour + car + ride) / 3
  }

  /** All three scores lie in 1..5. */
  predicate ScoresInRange(b: int, c: int, x: int) {
    1 <= b <= 5 && 1 <= c <= 5 && 1 <= x <= 5
  }

  /** The four numeric RATE fields all parse. */
  predicate RateNumbersParse(tokens: seq<string>)
    requires |tokens| >= 6
  {
    ParseInt(tokens[1]).Some? && ParseInt(tokens[2]).Some? && ParseInt(tokens[3]).Some? && ParseInt(tokens[4]).Some?
  }

  /** The guards RATE checks, in order: a customer, enough fields, four
      numbers, scores in 1..5, an existing ride, requested by this session,
      in END, and not yet rated. */
  ghost predicate RateAccepted(r: Registry, s: nat, tokens: seq<string>)
    requires Wf(r) && LoggedIn(r, s)
  {
    && IsCustomer(UserOf(r, s)) && |tokens| >= 6 && RateNumbersParse(tokens)
    && ScoresInRange(ParseInt(tokens[2]).value, ParseInt(tokens[3]).value, ParseInt(tokens[4]).value)
    && var k := FindRide(r.rides, ParseInt(tokens[1]).value);
    && k.Some? && r.rides[k.value].customer == s && r.rides[k.value].status == Ended && !r.rides[k.value].rated
  }

  /** The effect of an accepted RATE on ride k: the ride is marked rated and
      the assigned driver's user takes the truncated mean of the three scores
      into its running mean; both parties are told the new rating. The driver
      is dereferenced without a check: were there none, the ride would already
      be marked rated when the exception ends the session. */
  function CommitRating(r: Registry, s: nat, k: nat, b: int, c: int, x: int, comment: string): (rep: Reply)
    requires Wf(r) && LoggedIn(r, s) && k < |r.rides| && ScoresInRange(b, c, x)
    ensures Wf(rep.reg)
    ensures rep.reg.rides == r.rides[k := r.rides[k].(rated := true)]
    ensures r.rides[k].driver.None? ==> rep == Reply(Teardown(r.(rides := rep.reg.rides), s), [])
    ensures r.rides[k].driver.Some? ==>
      var d := r.rides[k].driver.value;
      var u := r.sessions[d].user.value;
      && rep.reg == r.(rides := rep.reg.rides, users := rep.reg.users)
      && rep.reg.users == r.users[u := AddRating(r.users[u], Overall(b, c, x))]
      && rep.out == [Message(s, RatedNotice(r.rides[k].id, b, c, x, comment, rep.reg.users[u].rating)),
                     Message(d, RatedNotice(r.rides[k].id, b, c, x, comment, rep.reg.users[u].rating))]
  {
    var r1 := r.(rides := r.rides[k := r.rides[k].(rated := true)]);
    match r.rides[k].driver
    case None => Reply(Teardown(r1, s), [])
    case Some(d) =>
      var u := r.sessions[d].user.value;
      var driver := AddRating(r.users[u], Overall(b, c, x));
      var note := RatedNotice(r.rides[k].id, b, c, x, comment, driver.rating);
      Reply(r1.(users := r.users[u := driver]), [Message(s, note), Message(d, note)])
  }

  /** RATE:rideId:behaviour:car:ride:comment. Refused, changing nothing, when a
      field is missing or not a number, a score lies outside 1..5, the caller
      did not request the ride, the ride is not in END, or it is already
      rated; otherwise committed as CommitRating states. */
  function Rate(r: Registry, s: nat, tokens: seq<string>): (rep: Reply)
    requires Wf(r) && LoggedIn(r, s)
    ensures Wf(rep.reg)
    ensures !IsCustomer(UserOf(r, s)) ==> rep == Reject(r, s, WrongRole)
    ensures !RateAccepted(r, s, tokens) ==>
      rep.reg == r && |rep.out| == 1 && rep.out[0].to == s && rep.out[0].body.Error?
    ensures RateAccepted(r, s, tokens) ==>
      rep == CommitRating(r, s, FindRide(r.rides, ParseInt(tokens[1]).value).value,
                          ParseInt(tokens[2]).value, ParseInt(tokens[3]).value, ParseInt(tokens[4]).value, tokens[5])
  {
    if !IsCustomer(UserOf(r, s)) then Reject(r, s, WrongRole)
    else if |tokens| < 6 then Reject(r, s, BadFormat)
    else if !RateNumbersParse(tokens) then Reject(r, s, BadNumber)
    else
      var id := ParseInt(tokens[1]).value;
      var (b, c, x) := (ParseInt(tokens[2]).value, ParseInt(tokens[3]).value, ParseInt(tokens[4]).value);
      if !ScoresInRange(b, c, x) then Reject(r, s, RatingOutOfRange)
      else
        match FindRide(r.rides, id)
        case None => Reject(r, s, RideNotFound)
        case Some(k) =>
          if r.rides[k].customer != s then Reject(r, s, NotRideOwner)
          else if r.rides[k].status != Ended then Reject(r, s, NotEnded)
          else if r.rides[k].rated then Reject(r, s, AlreadyRated)
          else CommitRating(r, s, k, b, c, x, tokens[5])
  }

  /** Which error a refused RATE reports once its numbers parse: a score
      outside 1..5, a caller who did not request the ride, a ride not in END,
      a ride already rated. */
  lemma RateRefusals(r: Registry, s: nat, tokens: seq<string>)
    requires Wf(r) && LoggedIn(r, s)
    requires IsCustomer(UserOf(r, s)) && |tokens| >= 6 && RateNumbersParse(tokens)
    ensures
      var rep := Rate(r, s, tokens);
      var (b, c, x) := (ParseInt(tokens[2]).value, ParseInt(tokens[3]).value, ParseInt(tokens[4]).value);
      var k := FindRide(r.rides, ParseInt(tokens[1]).value);
      && (!ScoresInRange(b, c, x) ==> rep == Reject(r, s, RatingOutOfRange))
      && (ScoresInRange(b, c, x) && k.None? ==> rep == Reject(r, s, RideNotFound))
      && (ScoresInRange(b, c, x) && k.Some? && r.rides[k.value].customer != s ==> rep == Reject(r, s, NotRideOwner))
      && (ScoresInRange(b, c, x) && k.Some? && r.rides[k.value].customer == s && r.rides[k.value].status != Ended ==>
            rep == Reject(r, s, NotEnded))
      && (ScoresInRange(b, c, x) && k.Some? && r.rides[k.value].customer == s
          && r.rides[k.value].status == Ended && r.rides[k.value].rated ==>
            rep == Reject(r, s, AlreadyRated))
  {
  }

  /** The state change of a successful CANCEL of ride `k`: its status becomes
      CANCELLED (the `assigned` flag and the driver are kept), its driver, if
      any, is no longer busy, and every connected driver whose pending offer
      is this ride has it cleared; nothing else changes. */
  function CommitCancel(r: Registry, k: nat): (r': Registry)
    requires Wf(r) && k < |r.rides|
    ensures Wf(r')
    ensures |r'.rides| == |r.rides| && |r'.sessions| == |r.sessions|
    ensures r'.rides == r.rides[k := r.rides[k].(status := Cancelled)]
    ensures r.rides[k].driver.Some? ==> !r'.sessions[r.rides[k].driver.value].busy
    ensures forall t :: 0 <= t < |r.sessions| && t in r.drivers && r.sessions[t].offerRideId == r.rides[k].id ==>
      r'.sessions[t].offerRideId == NoOffer
    ensures forall t :: 0 <= t < |r.sessions| && !(t in r.drivers && r.sessions[t].offerRideId == r.rides[k].id) ==>
      r'.sessions[t].offerRideId == r.sessions[t].offerRideId
    ensures forall t :: 0 <= t < |r.sessions| && Some(t) != r.rides[k].driver ==> r'.sessions[t].busy == r.sessions[t].busy
    ensures forall t :: 0 <= t < |r.sessions| ==>
      r'.sessions[t].user == r.sessions[t].user && r'.sessions[t].running == r.sessions[t].running
    ensures r'.users == r.users && r'.drivers == r.drivers && r'.customers == r.customers
    ensures r'.nextRideId == r.nextRideId
  {
    ClearPending(CancelAndFree(r, k), r.rides[k].id)
  }

  /** The first half of a cancellation: the ride is CANCELLED and its
      driver, if any, is free. */
  function CancelAndFree(r: Registry, k: nat): (r': Registry)
    requires Wf(r) && k < |r.rides|
    ensures Wf(r')
    ensures r'.rides == r.rides[k := r.rides[k].(status := Cancelled)]
    ensures |r'.sessions| == |r.sessions|
    ensures r.rides[k].driver.Some? ==> !r'.sessions[r.rides[k].driver.value].busy
    ensures forall t :: 0 <= t < |r.sessions| && Some(t) != r.rides[k].driver ==> r'.sessions[t] == r.sessions[t]
    ensures forall t :: 0 <= t < |r.sessions| ==> r'.sessions[t] == r.sessions[t].(busy := r'.sessions[t].busy)
    ensures r' == r.(rides := r'.rides, sessions := r'.sessions)
  {
    var ride := r.rides[k];
    UpdateStatusKeepsUpperCase(ride, Cancelled);
    var sessions := match ride.driver
      case Some(d) => r.sessions[d := r.sessions[d].(busy := false)]
      case None => r.sessions;
    r.(rides := r.rides[k := UpdateStatus(ride, Cancelled)], sessions := sessions)
  }

  /** The cancellation notices, one per connected driver in list order. */
  function CancelNotices(ds: seq<nat>, id: int): (out: seq<Message>)
    ensures |out| == |ds|
    ensures forall i :: 0 <= i < |ds| ==> out[i] == Message(ds[i], StatusNotice(id, Cancelled))
  {
    seq(|ds|, i requires 0 <= i < |ds| => Message(ds[i], StatusNotice(id, Cancelled)))
  }

  /** The replies of an accepted CANCEL: the confirmation to the customer,
      then one notice per connected driver. */
  function CancelReplies(s: nat, ds: seq<nat>, id: int): (out: seq<Message>)
    ensures |out| == 1 + |ds| && out[0] == Message(s, RideCancelled(id))
    ensures forall i :: 1 <= i < |out| ==> out[i].to in ds && out[i].body == StatusNotice(id, Cancelled)
    ensures forall d :: d in ds ==> Message(d, StatusNotice(id, Cancelled)) in out
    ensures NoDup(ds) ==> forall i, j :: 1 <= i < j < |out| ==> out[i].to != out[j].to
  {
    var notices := CancelNotices(ds, id);
    var out := [Message(s, RideCancelled(id))] + notices;
    assert forall i :: 1 <= i < |out| ==> out[i] == notices[i - 1];
    assert forall d :: d in ds ==> Message(d, StatusNotice(id, Cancelled)) in notices;
    out
  }

  /** CANCEL. Acts on the customer's latest active ride (as VIEW picks it):
      refused if it is in START, otherwise cancelled as `CommitCancel` says,
      with every connected driver told. Without an active ride the customer is
      told there is nothing to cancel. */
  function Cancel(r: Registry, s: nat): (rep: Reply)
    requires Wf(r) && LoggedIn(r, s)
    ensures Wf(rep.reg)
    ensures !IsCustomer(UserOf(r, s)) ==> rep == Reject(r, s, WrongRole)
    ensures IsCustomer(UserOf(r, s)) && !HasActiveRide(r.rides, s) ==> rep == Reply(r, [Message(s, NothingToCancel)])
    ensures IsCustomer(UserOf(r, s)) && LatestActive(r.rides, s).Some? ==>
      var k := LatestActive(r.rides, s).value;
      && (r.rides[k].status == Started ==> rep == Reject(r, s, CancelAfterStart))
      && (r.rides[k].status != Started ==>
            && rep.reg == CommitCancel(r, k)
            && |rep.out| == 1 + |r.drivers| && rep.out[0] == Message(s, RideCancelled(r.rides[k].id))
            && (forall i :: 1 <= i < |rep.out| ==>
                  rep.out[i].to in r.drivers && rep.out[i].body == StatusNotice(r.rides[k].id, Cancelled))
            && (forall d :: d in r.drivers ==> Message(d, StatusNotice(r.rides[k].id, Cancelled)) in rep.out)
            && (NoDup(r.drivers) ==> forall i, j :: 1 <= i < j < |rep.out| ==> rep.out[i].to != rep.out[j].to))
  {
    if !IsCustomer(UserOf(r, s)) then Reject(r, s, WrongRole)
    else
      match LatestActive(r.rides, s)
      case None => Reply(r, [Message(s, NothingToCancel)])
      case Some(k) =>
        if r.rides[k].status == Started then Reject(r, s, CancelAfterStart)
        else Reply(CommitCancel(r, k), CancelReplies(s, r.drivers, r.rides[k].id))
  }

  /** How many users have the admin role. */
  function CountAdmins(users: seq<User>): (n: nat)
    ensures n <= |users|
    decreases |users|
  {
    if |users| == 0 then 0 else (if IsAdmin(users[0]) then 1 else 0) + CountAdmins(users[1..])
  }

  lemma {:induction false} CountAdminsAppend(a: seq<User>, b: seq<User>)
    ensures CountAdmins(a + b) == CountAdmins(a) + CountAdmins(b)
    decreases |a|
  {
    if |a| == 0 {
      assert a + b == b;
    } else {
      CountAdminsAppend(a[1..], b);
      assert (a + b)[0] == a[0] && (a + b)[1..] == a[1..] + b;
    }
  }

  /** `CountAdmins` is the number of users whose type is admin ignoring
      case, which is what the stream filter-and-count computes. */
  lemma {:induction false} CountAdminsIsCardinality(users: seq<User>)
    ensures CountAdmins(users) == |set i | 0 <= i < |users| && IsAdmin(users[i])|
    decreases |users|
  {
    if |users| > 0 {
      var init := users[..|users| - 1];
      var last := users[|users| - 1];
      assert users == init + [last];
      CountAdminsIsCardinality(init);
      CountAdminsAppend(init, [last]);
      assert [last][1..] == [];
      var a := set i | 0 <= i < |init| && IsAdmin(init[i]);
      var b := set i | 0 <= i < |users| && IsAdmin(users[i]);
      if IsAdmin(last) {
        assert b == a + {|init|};
        assert |init| !in a;
      } else {
        assert b == a;
      }
    }
  }

  /** STATS (admin only): a read-only snapshot of the counts. Rides in
      CANCELLED have no bucket of their own. */
  function Stats(r: Registry, s: nat): (rep: Reply)
    requires Wf(r) && LoggedIn(r, s)
    ensures rep.reg == r && |rep.out| == 1 && rep.out[0].to == s
    ensures !IsAdmin(UserOf(r, s)) ==> rep.out[0].body == Error(WrongRole)
    ensures IsAdmin(UserOf(r, s)) ==>
      && rep.out[0].body.StatsReport?
      && rep.out[0].body.users == |r.users| && rep.out[0].body.rides == |r.rides|
      && rep.out[0].body.drivers == |r.drivers| && rep.out[0].body.customers == |r.customers|
      && rep.out[0].body.admins == CountAdmins(r.users)
      && rep.out[0].body.requested == CountStatus(r.rides, Requested)
      && rep.out[0].body.assignedCount == CountStatus(r.rides, Assigned)
      && rep.out[0].body.started == CountStatus(r.rides, Started)
      && rep.out[0].body.ended == CountStatus(r.rides, Ended)
      && rep.out[0].body.requested + rep.out[0].body.assignedCount + rep.out[0].body.started + rep.out[0].body.ended <= |r.rides|
  {
    if !IsAdmin(UserOf(r, s)) then Reject(r, s, WrongRole)
    else
      var requested := CountStatus(r.rides, Requested);
      var assignedCount := CountStatus(r.rides, Assigned);
      var started := CountStatus(r.rides, Started);
      var ended := CountStatus(r.rides, Ended);
      StatusCountsBound(r.rides);
      Reply(r, [Message(s, StatsReport(|r.users|, |r.customers|, |r.drivers|, CountAdmins(r.users), |r.rides|,
                                 requested, assignedCount, started, ended))])
  }

  /** What an admin's STATS sees change across an accepted REQUEST: one more
      ride and one more REQUESTED, every other figure the same. */
  lemma StatsAfterRequest(r: Registry, s: nat, tokens: seq<string>, a: nat)
    requires Wf(r) && LoggedIn(r, s) && LoggedIn(r, a) && IsAdmin(UserOf(r, a))
    requires IsCustomer(UserOf(r, s)) && !HasActiveRide(r.rides, s) && |tokens| >= 3
    ensures
      var r' := Request(r, s, tokens).reg;
      var before := Stats(r, a).out[0].body;
      var after := Stats(r', a).out[0].body;
      && after.rides == before.rides + 1 && after.requested == before.requested + 1
      && after.assignedCount == before.assignedCount && after.started == before.started
      && after.ended == before.ended && after.users == before.users && after.admins == before.admins
      && after.drivers == before.drivers && after.customers == before.customers
  {
    var r' := Request(r, s, tokens).reg;
    var ride := r'.rides[|r.rides|];
    assert r'.rides == r.rides + [ride];
    assert [ride][1..] == [];
    CountStatusAppend(r.rides, [ride], Requested);
    CountStatusAppend(r.rides, [ride], Assigned);
    CountStatusAppend(r.rides, [ride], Started);
    CountStatusAppend(r.rides, [ride], Ended);
  }

  /** The four reported status counts never exceed the number of rides. */
  lemma {:induction false} StatusCountsBound(rides: seq<Ride>)
    ensures CountStatus(rides, Requested) + CountStatus(rides, Assigned) + CountStatus(rides, Started)
      + CountStatus(rides, Ended) <= |rides|
    decreases |rides|
  {
    if |rides| > 0 {
      StatusCountsBound(rides[1..]);
    }
  }

  /** DISCONNECT. Refused while the session is the customer or the driver of a
      ride in START; otherwise the session is torn down. */
  function Disconnect(r: Registry, s: nat): (rep: Reply)
    requires Wf(r) && LoggedIn(r, s)
    ensures Wf(rep.reg)
    ensures InOngoingRide(r.rides, s) ==> rep == Reject(r, s, RideInProgress)
    ensures !InOngoingRide(r.rides, s) ==> rep == Reply(Teardown(r, s), [Message(s, Disconnecting)])
  {
    if InOngoingRide(r.rides, s) then Reject(r, s, RideInProgress)
    else Reply(Teardown(r, s), [Message(s, Disconnecting)])
  }

  /** The verbs of the command phase; any other verb is an unknown command. */
  const CommandVerbs: set<string> :=
    {"REQUEST", "VIEW", "OFFER", "ASSIGN", "UPDATE", "RATE", "CANCEL", "STATS", "DISCONNECT"}

  /** One line read after login, split with `split(":")`; the verb is
      matched after upper-casing. An empty token list is ignored. */
  function CommandStep(r: Registry, s: nat, line: string): (rep: Reply)
    requires Wf(r) && LoggedIn(r, s)
    ensures Wf(rep.reg) && |rep.reg.sessions| == |r.sessions|
    ensures |Tokens(line, ':')| == 0 ==> rep == Reply(r, [])
    ensures var t := Tokens(line, ':'); |t| > 0 ==>
      var verb := ToUpper(t[0]);
      && (verb == "REQUEST" ==> rep == Request(r, s, t))
      && (verb == "VIEW" ==> rep == View(r, s))
      && (verb == "OFFER" ==> rep == Offer(r, s, t))
      && (verb == "ASSIGN" ==> rep == Assign(r, s, t))
      && (verb == "UPDATE" ==> rep == Update(r, s, t))
      && (verb == "RATE" ==> rep == Rate(r, s, t))
      && (verb == "CANCEL" ==> rep == Cancel(r, s))
      && (verb == "STATS" ==> rep == Stats(r, s))
      && (verb == "DISCONNECT" ==> rep == Disconnect(r, s))
      && (verb !in CommandVerbs ==> rep == Reject(r, s, UnknownCommand) && rep.reg == r)
  {
    var tokens := Tokens(line, ':');
    if |tokens| == 0 then Reply(r, [])
    else
      var verb := ToUpper(tokens[0]);
      if verb == "REQUEST" then Request(r, s, tokens)
      else if verb == "VIEW" then View(r, s)
      else if verb == "OFFER" then Offer(r, s, tokens)
      else if verb == "ASSIGN" then Assign(r, s, tokens)
      else if verb == "UPDATE" then Update(r, s, tokens)
      else if verb == "RATE" then Rate(r, s, tokens)
      else if verb == "CANCEL" then Cancel(r, s)
      else if verb == "STATS" then Stats(r, s)
      else if verb == "DISCONNECT" then Disconnect(r, s)
      else Reject(r, s, UnknownCommand)
  }

  /** One line read from session `s`: before login it goes to the
      authentication phase, afterwards to the command phase; a torn-down
      session reads nothing more. */
  function Step(r: Registry, s: nat, line: string): (rep: Reply)
    requires Wf(r) && s < |r.sessions|
    ensures Wf(rep.reg) && |rep.reg.sessions| == |r.sessions|
    ensures !r.sessions[s].running ==> rep == Reply(r, [])
    ensures r.sessions[s].running && r.sessions[s].user.None? ==> rep == AuthStep(r, s, line)
    ensures r.sessions[s].running && r.sessions[s].user.Some? ==> rep == CommandStep(r, s, line)
  {
    if !r.sessions[s].running then Reply(r, [])
    else if r.sessions[s].user.None? then AuthStep(r, s, line)
    else CommandStep(r, s, line)
  }

  /** What can happen to the server: a connection opens, a session sends a
      line, or a connection ends (end of stream or a read error). */
  datatype Event = Open | Line(session: nat, text: string) | Close(session: nat)

  /** One event applied to the registry; events naming no session do nothing. */
  function Apply(r: Registry, e: Event): (r': Registry)
    requires Wf(r)
    ensures Wf(r') && |r'.sessions| >= |r.sessions|
  {
    match e
    case Open => Connect(r)
    case Line(s, text) => if s < |r.sessions| then Step(r, s, text).reg else r
    case Close(s) => if s < |r.sessions| && r.sessions[s].running then Teardown(r, s) else r
  }

  /** The registry after a history of events, starting from the seeded one. */
  function Run(events: seq<Event>): (r: Registry)
    ensures Wf(r)
    decreases |events|
  {
    if |events| == 0 then Init() else Apply(Run(events[..|events| - 1]), events[|events| - 1])
  }
}
