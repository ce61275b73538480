/**
 * The process-wide registry (the shared lists of the server class) as one
 * value, the per-connection session state, and the messages a command sends.
 * Users, sessions and rides are referred to by their position in the registry.
 */
module Registry {
  import opened Wrappers
  import opened Text
  import opened Users
  import opened Rides

  /** The value of `currentOfferRideId` meaning "no pending offer". */
  const NoOffer: int := -1

  /** One connection. `user` is the logged-in user (None before login),
      `busy` and `offerRideId` are the driver-side state, `running` is false
      once the connection has been torn down. */
  datatype Session = Session(user: Option<nat>, busy: bool, offerRideId: int, running: bool)

  /** Users, every session ever opened, the connected driver and customer
      sessions in login order, the rides in creation order, and the id counter. */
  datatype Registry = Registry(
    users: seq<User>,
    sessions: seq<Session>,
    drivers: seq<nat>,
    customers: seq<nat>,
    rides: seq<Ride>,
    nextRideId: int)

  /** Why a command was refused. */
  datatype ErrorKind =
    | BadAuthFormat        // fewer than three fields while logging in
    | MissingType          // REGISTER without a role
    | AdminRegistration    // REGISTER asking for the admin role
    | UsernameTaken        // REGISTER with a name already known, ignoring case
    | BadCredentials       // LOGIN that matches no user
    | UnknownAuthCommand   // neither REGISTER nor LOGIN while logging in
    | WrongRole            // the user's role may not issue this command
    | ActiveRideExists     // REQUEST while an earlier ride is still active
    | BadFormat            // too few fields
    | BadNumber            // a numeric field does not parse
    | PendingOffer(rideId: int)  // OFFER while an earlier offer is pending
    | RideUnavailable      // OFFER on an unknown or already assigned ride
    | NotRideOwner         // ASSIGN or RATE by someone other than the requester
    | DriverNotOffered     // ASSIGN naming no driver that offered and is connected
    | AlreadyAssigned      // ASSIGN on an assigned ride
    | BadStatus            // UPDATE to something other than START or END
    | RideNotFound         // UPDATE or RATE on an unknown ride
    | NotAssignedDriver    // UPDATE by someone other than the assigned driver
    | AlreadyStarted       // UPDATE:START on a ride in START
    | NotStarted           // UPDATE:END on a ride not in START
    | RatingOutOfRange     // RATE with a score outside 1..5
    | NotEnded             // RATE on a ride not in END
    | AlreadyRated         // RATE on a rated ride
    | CancelAfterStart     // CANCEL of a ride in START
    | RideInProgress       // DISCONNECT during a started ride
    | UnknownCommand       // an unknown verb after login
    | NotStartable         // corrected UPDATE only: START on a ride that is not ASSIGNED
    | RideClosed           // corrected ASSIGN only: ASSIGN on a ride that is no longer REQUESTED

  /** What a message says; `Error` stands for every "ERROR:" line. */
  datatype Body =
    | Registered(name: string)
    | PleaseLogIn
    | Welcome(name: string, role: string)
    | RequestReceived(rideId: int)
    | NewRideNotice(rideId: int, pickup: string, destination: string)
    | NoDriversAvailable
    | RideStatus(rideId: int, status: string)
    | NoActiveRide
    | OfferSent(rideId: int)
    | Offers(rideId: int, book: map<string, real>)
    | RideAssigned(driverName: string)
    | AssignedNotice(rideId: int)
    | StatusNotice(rideId: int, status: string)
    | StatusUpdated(rideId: int, status: string)
    | RatedNotice(rideId: int, behaviour: int, car: int, ride: int, comment: string, newRating: real)
    | RideCancelled(rideId: int)
    | NothingToCancel
    | StatsReport(users: nat, customers: nat, drivers: nat, admins: nat, rides: nat,
                  requested: nat, assignedCount: nat, started: nat, ended: nat)
    | Disconnecting
    | Error(kind: ErrorKind)

  datatype Message = Message(to: nat, body: Body)

  /** The registry after one command, and the messages it sent, in order. */
  datatype Reply = Reply(reg: Registry, out: seq<Message>)

  /** Session `s` exists and has a logged-in user. */
  predicate LoggedIn(r: Registry, s: nat) {
    s < |r.sessions| && r.sessions[s].user.Some?
  }

  /** Every reference points at something that exists, and the sessions the
      role lists and the rides refer to have logged in (a session joins a role
      list, or requests or receives a ride, only after login, and never loses
      its user). */
  ghost predicate Wf(r: Registry) {
    && (forall s :: 0 <= s < |r.sessions| && r.sessions[s].user.Some? ==> r.sessions[s].user.value < |r.users|)
    && (forall t :: t in r.drivers ==> LoggedIn(r, t))
    && (forall t :: t in r.customers ==> LoggedIn(r, t))
    && (forall i :: 0 <= i < |r.rides| ==> LoggedIn(r, r.rides[i].customer))
    && (forall i :: 0 <= i < |r.rides| && r.rides[i].driver.Some? ==> LoggedIn(r, r.rides[i].driver.value))
  }

  /** The user logged in on session `s`. */
  function UserOf(r: Registry, s: nat): User
    requires Wf(r) && LoggedIn(r, s)
  {
    r.users[r.sessions[s].user.value]
  }

  /** `getUserName` of a logged-in session. */
  function NameOf(r: Registry, s: nat): string
    requires Wf(r) && LoggedIn(r, s)
  {
    UserOf(r, s).name
  }

  predicate IsDriver(u: User) { EqualsIgnoreCase(u.kind, "driver") }
  predicate IsCustomer(u: User) { EqualsIgnoreCase(u.kind, "customer") }
  predicate IsAdmin(u: User) { EqualsIgnoreCase(u.kind, "admin") }

  /** The seeded registry: one `admin` user, no sessions and no rides; the id
      counter starts at 1. */
  function Init(): (r: Registry)
    ensures Wf(r)
    ensures |r.users| == 1 && r.users[0].name == "admin" && IsAdmin(r.users[0])
    ensures r.users[0].password == "admin123" && r.users[0].rating == 0.0 && r.users[0].ratingCount == 0
    ensures r.sessions == [] && r.drivers == [] && r.customers == [] && r.rides == [] && r.nextRideId == 1
  {
    Registry([NewUser("admin", "admin123", "admin")], [], [], [], [], 1)
  }

  /** A new connection: a running session with no user, not busy, no pending offer. */
  function Connect(r: Registry): (r': Registry)
    requires Wf(r)
    ensures Wf(r')
    ensures |r'.sessions| == |r.sessions| + 1 && r'.sessions[..|r.sessions|] == r.sessions
    ensures r'.sessions[|r.sessions|] == Session(None, false, NoOffer, true)
    ensures r' == r.(sessions := r'.sessions)
  {
    r.(sessions := r.sessions + [Session(None, false, NoOffer, true)])
  }

  /** Position of the first `x` in `xs`, or |xs| when there is none. */
  function IndexOf(xs: seq<nat>, x: nat): (k: nat)
    ensures k <= |xs|
    ensures k < |xs| ==> xs[k] == x
    ensures forall j :: 0 <= j < k ==> xs[j] != x
    decreases |xs|
  {
    if |xs| == 0 || xs[0] == x then 0 else 1 + IndexOf(xs[1..], x)
  }

  /** `List.remove(Object)`: drops the first occurrence of `x`, if any; the
      other elements keep their order and exactly one `x` disappears. */
  function RemoveFirst(xs: seq<nat>, x: nat): (ys: seq<nat>)
    ensures x !in xs ==> ys == xs
    ensures x in xs ==> multiset(ys) == multiset(xs) - multiset{x}
    ensures x in xs ==>
      exists k :: 0 <= k < |xs| && xs[k] == x && x !in xs[..k] && ys == xs[..k] + xs[k + 1..]
  {
    var k := IndexOf(xs, x);
    if k == |xs| then xs
    else
      assert xs == xs[..k] + [x] + xs[k + 1..];
      xs[..k] + xs[k + 1..]
  }

  /** A list without repeats is one whose every element occurs once. */
  ghost predicate NoDup(xs: seq<nat>) {
    forall i, j :: 0 <= i < j < |xs| ==> xs[i] != xs[j]
  }

  /** Removing `x` keeps every other element, adds none, and, from a list
      without repeats, leaves no `x` behind and no repeats. */
  lemma RemoveFirstMembers(xs: seq<nat>, x: nat)
    ensures forall y :: y != x ==> (y in RemoveFirst(xs, x) <==> y in xs)
    ensures forall y :: y in RemoveFirst(xs, x) ==> y in xs
    ensures NoDup(xs) ==> x !in RemoveFirst(xs, x) && NoDup(RemoveFirst(xs, x))
  {
    var ys := RemoveFirst(xs, x);
    var k := IndexOf(xs, x);
    if k < |xs| {
      assert ys == xs[..k] + xs[k + 1..];
      assert forall i :: 0 <= i < |ys| ==> ys[i] == xs[if i < k then i else i + 1];
      forall y | y in ys ensures y in xs && (NoDup(xs) ==> y != x) {
        var i :| 0 <= i < |ys| && ys[i] == y;
        assert y == xs[if i < k then i else i + 1];
      }
      forall y | y != x && y in xs ensures y in ys {
        var i :| 0 <= i < |xs| && xs[i] == y;
        assert y == ys[if i < k then i else i - 1];
      }
      if NoDup(xs) {
        forall i, j | 0 <= i < j < |ys| ensures ys[i] != ys[j] {
          assert ys[i] == xs[if i < k then i else i + 1] && ys[j] == xs[if j < k then j else j + 1];
        }
      }
    }
  }

  /** `addToRoleList` after login: drivers and customers join their list, an
      admin joins neither. */
  function AddToRoleList(r: Registry, s: nat): (r': Registry)
    requires Wf(r) && LoggedIn(r, s)
    ensures Wf(r')
    ensures IsDriver(UserOf(r, s)) ==> r' == r.(drivers := r.drivers + [s])
    ensures !IsDriver(UserOf(r, s)) && IsCustomer(UserOf(r, s)) ==> r' == r.(customers := r.customers + [s])
    ensures !IsDriver(UserOf(r, s)) && !IsCustomer(UserOf(r, s)) ==> r' == r
  {
    var u := UserOf(r, s);
    if IsDriver(u) then r.(drivers := r.drivers + [s])
    else if IsCustomer(u) then r.(customers := r.customers + [s])
    else r
  }

  /** The `finally` block of `run`: the connection stops and a logged-in
      session leaves its role list. */
  function Teardown(r: Registry, s: nat): (r': Registry)
    requires Wf(r) && s < |r.sessions|
    ensures Wf(r')
    ensures |r'.sessions| == |r.sessions|
    ensures r'.users == r.users && r'.rides == r.rides && r'.nextRideId == r.nextRideId
    ensures forall t :: 0 <= t < |r.sessions| && t != s ==> r'.sessions[t] == r.sessions[t]
    ensures r'.sessions[s] == r.sessions[s].(running := false)
    ensures forall t :: t != s ==> (t in r'.drivers <==> t in r.drivers) && (t in r'.customers <==> t in r.customers)
    ensures forall t :: t in r'.drivers ==> t in r.drivers
    ensures forall t :: t in r'.customers ==> t in r.customers
    ensures NoDup(r.drivers) ==> NoDup(r'.drivers)
    ensures NoDup(r.customers) ==> NoDup(r'.customers)
    ensures r.sessions[s].user.Some? && IsDriver(UserOf(r, s)) && NoDup(r.drivers) ==> s !in r'.drivers
    ensures r.sessions[s].user.Some? && IsCustomer(UserOf(r, s)) && NoDup(r.customers) ==> s !in r'.customers
    ensures r'.drivers == (if r.sessions[s].user.Some? && IsDriver(UserOf(r, s)) then RemoveFirst(r.drivers, s) else r.drivers)
    ensures r'.customers ==
      (if r.sessions[s].user.Some? && !IsDriver(UserOf(r, s)) && IsCustomer(UserOf(r, s)) then RemoveFirst(r.customers, s) else r.customers)
  {
    var r1 := LeaveRoleLists(r, s);
    r1.(sessions := r1.sessions[s := r1.sessions[s].(running := false)])
  }

  /** The role-list half of the teardown: the session leaves the list of its role. */
  function LeaveRoleLists(r: Registry, s: nat): (r': Registry)
    requires Wf(r) && s < |r.sessions|
    ensures Wf(r')
    ensures r' == r.(drivers := r'.drivers, customers := r'.customers)
    ensures forall t :: t != s ==> (t in r'.drivers <==> t in r.drivers) && (t in r'.customers <==> t in r.customers)
    ensures forall t :: t in r'.drivers ==> t in r.drivers
    ensures forall t :: t in r'.customers ==> t in r.customers
    ensures NoDup(r.drivers) ==> NoDup(r'.drivers)
    ensures NoDup(r.customers) ==> NoDup(r'.customers)
    ensures r.sessions[s].user.Some? && IsDriver(UserOf(r, s)) && NoDup(r.drivers) ==> s !in r'.drivers
    ensures r.sessions[s].user.Some? && IsCustomer(UserOf(r, s)) && NoDup(r.customers) ==> s !in r'.customers
    ensures r'.drivers == (if r.sessions[s].user.Some? && IsDriver(UserOf(r, s)) then RemoveFirst(r.drivers, s) else r.drivers)
    ensures r'.customers ==
      (if r.sessions[s].user.Some? && !IsDriver(UserOf(r, s)) && IsCustomer(UserOf(r, s)) then RemoveFirst(r.customers, s) else r.customers)
  {
    RemoveFirstMembers(r.drivers, s);
    RemoveFirstMembers(r.customers, s);
    if r.sessions[s].user.None? then r
    else if IsDriver(UserOf(r, s)) then r.(drivers := RemoveFirst(r.drivers, s))
    else if IsCustomer(UserOf(r, s)) then r.(customers := RemoveFirst(r.customers, s))
    else r
  }

  /** The connected drivers with their usernames, in list order: what
      `assignDriver` scans. */
  function ConnectedDrivers(r: Registry): (c: seq<(nat, string)>)
    requires Wf(r)
    ensures |c| == |r.drivers|
    ensures forall i :: 0 <= i < |c| ==> c[i].0 == r.drivers[i] && c[i].1 == NameOf(r, r.drivers[i])
  {
    seq(|r.drivers|, i requires 0 <= i < |r.drivers| => (r.drivers[i], NameOf(r, r.drivers[i])))
  }

  /** The NEW_RIDE notices of `broadcastRideRequest`: one per driver of `ds`
      that is not busy, in list order. */
  function IdleNotices(ds: seq<nat>, sessions: seq<Session>, ride: Ride): (out: seq<Message>)
    requires forall d :: d in ds ==> d < |sessions|
    ensures forall m :: m in out ==>
      m.to in ds && !sessions[m.to].busy && m.body == NewRideNotice(ride.id, ride.pickup, ride.destination)
    ensures forall d :: d in ds && !sessions[d].busy ==> Message(d, NewRideNotice(ride.id, ride.pickup, ride.destination)) in out
    ensures |out| <= |ds|
    decreases |ds|
  {
    if |ds| == 0 then []
    else
      assert forall d :: d in ds[1..] ==> d in ds;
      assert ds[0] in ds;
      var rest := IdleNotices(ds[1..], sessions, ride);
      if sessions[ds[0]].busy then rest
      else [Message(ds[0], NewRideNotice(ride.id, ride.pickup, ride.destination))] + rest
  }

  /** `broadcastRideRequest`: every connected driver that is not busy hears of
      the ride; if there is none, the customer is told no driver is available. */
  function Broadcast(r: Registry, ride: Ride): (out: seq<Message>)
    requires Wf(r)
    ensures forall m :: m in out && m.body != NoDriversAvailable ==>
      m.to in r.drivers && !r.sessions[m.to].busy && m.body == NewRideNotice(ride.id, ride.pickup, ride.destination)
    ensures forall d :: d in r.drivers && !r.sessions[d].busy ==>
      Message(d, NewRideNotice(ride.id, ride.pickup, ride.destination)) in out
    ensures Message(ride.customer, NoDriversAvailable) in out <==> forall d :: d in r.drivers ==> r.sessions[d].busy
    ensures forall m :: m in out && m.body == NoDriversAvailable ==> m.to == ride.customer
  {
    var notices := IdleNotices(r.drivers, r.sessions, ride);
    if |notices| > 0 then
      assert notices[0] in notices;
      notices
    else notices + [Message(ride.customer, NoDriversAvailable)]
  }

  /** The loop that clears every connected driver's pending offer on ride `id`. */
  function ClearPending(r: Registry, id: int): (r': Registry)
    requires Wf(r)
    ensures Wf(r')
    ensures |r'.sessions| == |r.sessions|
    ensures forall s :: 0 <= s < |r.sessions| ==>
      r'.sessions[s] == (if s in r.drivers && r.sessions[s].offerRideId == id
                         then r.sessions[s].(offerRideId := NoOffer) else r.sessions[s])
    ensures r' == r.(sessions := r'.sessions)
  {
    r.(sessions := seq(|r.sessions|, s requires 0 <= s < |r.sessions| =>
      if s in r.drivers && r.sessions[s].offerRideId == id then r.sessions[s].(offerRideId := NoOffer)
      else r.sessions[s]))
  }
}
