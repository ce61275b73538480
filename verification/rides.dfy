/**
 * The ride aggregate and the queries the server runs over its list of rides.
 * Sessions are referred to by number: `customer` is the session that
 * requested the ride and `driver` the session it was assigned to.
 */
module Rides {
  import opened Wrappers
  import opened Text

  const Requested: string := "REQUESTED"
  const Assigned: string := "ASSIGNED"
  const Started: string := "START"
  const Ended: string := "END"
  const Cancelled: string := "CANCELLED"

  /** The statuses the server ever stores. */
  predicate ValidStatus(s: string) {
    s == Requested || s == Assigned || s == Started || s == Ended || s == Cancelled
  }

  /** One ride request and its lifecycle. `offers` maps a driver's exact
      username to the fare that driver offered. */
  datatype Ride = Ride(
    id: int,
    pickup: string,
    destination: string,
    customer: nat,
    isAssigned: bool,
    driver: Option<nat>,
    status: string,
    rated: bool,
    offers: map<string, real>)

  /** The `Ride` constructor, given the value the id counter hands out. */
  function NewRide(id: int, pickup: string, destination: string, customer: nat): Ride {
    Ride(id, pickup, destination, customer, false, None, Requested, false, map[])
  }

  /** A ride counts as ongoing for its customer unless it is END or CANCELLED. */
  predicate IsActive(ride: Ride) {
    ride.status != Ended && ride.status != Cancelled
  }

  /** `updateStatus`: the argument is stored upper-cased; nothing else changes. */
  function UpdateStatus(ride: Ride, status: string): (r: Ride)
    ensures IsUpperCase(r.status) && EqualsIgnoreCase(r.status, status)
    ensures r == ride.(status := r.status)
  {
    ToUpperFolds(status);
    ride.(status := ToUpper(status))
  }

  /** The statuses the protocol passes to `updateStatus` are stored as given. */
  lemma UpdateStatusKeepsUpperCase(ride: Ride, status: string)
    requires status == Started || status == Ended || status == Cancelled
    ensures UpdateStatus(ride, status).status == status
  {
    UpperCaseIsFixed(status);
  }

  /** `addOffer`: records `fare` under the exact username, replacing an earlier
      offer by the same name and leaving every other entry as it was. */
  function AddOffer(ride: Ride, name: string, fare: real): (r: Ride)
    ensures name in r.offers && r.offers[name] == fare
    ensures forall n :: n != name ==> (n in r.offers <==> n in ride.offers)
    ensures forall n :: n != name && n in ride.offers ==> r.offers[n] == ride.offers[n]
    ensures r == ride.(offers := r.offers)
  {
    ride.(offers := ride.offers[name := fare])
  }

  /** `getRideById`: the position of the first ride with this id, or None. */
  function FindRide(rides: seq<Ride>, id: int): (k: Option<nat>)
    ensures k.Some? ==> k.value < |rides| && rides[k.value].id == id
    ensures k.Some? ==> forall j :: 0 <= j < k.value ==> rides[j].id != id
    ensures k.None? <==> forall j :: 0 <= j < |rides| ==> rides[j].id != id
    decreases |rides|
  {
    if |rides| == 0 then None
    else if rides[0].id == id then Some(0)
    else
      match FindRide(rides[1..], id)
      case None => None
      case Some(k) => Some(k + 1)
  }

  /** When ride `i` carries id `i + 1`, looking a ride up by id is indexing. */
  lemma FindRideNumbered(rides: seq<Ride>, id: int)
    requires forall i :: 0 <= i < |rides| ==> rides[i].id == i + 1
    ensures FindRide(rides, id) == if 1 <= id <= |rides| then Some(id - 1) else None
  {
    if 1 <= id <= |rides| {
      assert rides[id - 1].id == id;
    }
  }

  /** The first connected driver whose username equals `name` ignoring case. */
  function FirstNamed(connected: seq<(nat, string)>, name: string): (k: Option<nat>)
    ensures k.Some? ==> k.value < |connected| && EqualsIgnoreCase(connected[k.value].1, name)
    ensures k.Some? ==> forall j :: 0 <= j < k.value ==> !EqualsIgnoreCase(connected[j].1, name)
    ensures k.None? <==> forall j :: 0 <= j < |connected| ==> !EqualsIgnoreCase(connected[j].1, name)
    decreases |connected|
  {
    if |connected| == 0 then None
    else if EqualsIgnoreCase(connected[0].1, name) then Some(0)
    else
      match FirstNamed(connected[1..], name)
      case None => None
      case Some(k) => Some(k + 1)
  }

  /** Position `k` holds the first connected driver called `name`, ignoring case. */
  predicate IsFirstNamed(connected: seq<(nat, string)>, name: string, k: int) {
    && 0 <= k < |connected|
    && EqualsIgnoreCase(connected[k].1, name)
    && forall j :: 0 <= j < k ==> !EqualsIgnoreCase(connected[j].1, name)
  }

  /** `assignDriver` over the connected drivers (session, username) in list
      order. It fails, changing nothing, unless `name` is a key of the offer
      book (exactly) and some connected driver has that name (ignoring case);
      otherwise the first such driver becomes the ride's driver and the status
      becomes ASSIGNED. The `assigned` flag is left to the caller. */
  function AssignDriver(ride: Ride, name: string, connected: seq<(nat, string)>): (a: Option<(Ride, nat)>)
    ensures a.None? <==> name !in ride.offers || forall j :: 0 <= j < |connected| ==> !EqualsIgnoreCase(connected[j].1, name)
    ensures a.Some? ==> exists k :: IsFirstNamed(connected, name, k) && a.value.1 == connected[k].0
    ensures a.Some? ==> a.value.0.driver == Some(a.value.1) && a.value.0.status == Assigned
    ensures a.Some? ==> a.value.0 == ride.(driver := a.value.0.driver, status := a.value.0.status)
  {
    if name !in ride.offers then None
    else
      match FirstNamed(connected, name)
      case None => None
      case Some(k) => Some((ride.(driver := Some(connected[k].0), status := Assigned), connected[k].0))
  }

  /** The rides customer session `c` owns that are still active. */
  predicate OwnsActive(ride: Ride, c: nat) {
    ride.customer == c && IsActive(ride)
  }

  /** The `hasActiveRide` scan of REQUEST. */
  function HasActiveRide(rides: seq<Ride>, c: nat): (b: bool)
    ensures b <==> exists j :: 0 <= j < |rides| && OwnsActive(rides[j], c)
    decreases |rides|
  {
    if |rides| == 0 then false else OwnsActive(rides[0], c) || HasActiveRide(rides[1..], c)
  }

  /** The ride VIEW and CANCEL act on: among the active rides of customer `c`,
      one with the highest id, the earliest in the list if several share it
      (the stream is stably sorted by descending id, then the first is taken). */
  function LatestActive(rides: seq<Ride>, c: nat): (k: Option<nat>)
    ensures k.Some? ==> k.value < |rides| && OwnsActive(rides[k.value], c)
    ensures k.Some? ==> forall j :: 0 <= j < |rides| && OwnsActive(rides[j], c) ==> rides[j].id <= rides[k.value].id
    ensures k.Some? ==> forall j :: 0 <= j < k.value && OwnsActive(rides[j], c) ==> rides[j].id < rides[k.value].id
    ensures k.None? <==> forall j :: 0 <= j < |rides| ==> !OwnsActive(rides[j], c)
    decreases |rides|
  {
    if |rides| == 0 then None
    else
      var last := |rides| - 1;
      var k := LatestActive(rides[..last], c);
      if !OwnsActive(rides[last], c) then k
      else if k.None? || rides[last].id > rides[k.value].id then Some(last)
      else k
  }

  /** Session `s` is the customer or the driver of this ride, and it is in START. */
  predicate OngoingFor(ride: Ride, s: nat) {
    (ride.customer == s || ride.driver == Some(s)) && ride.status == Started
  }

  /** `isInOngoingRide`: session `s` requested or drives a ride that is in START. */
  function InOngoingRide(rides: seq<Ride>, s: nat): (b: bool)
    ensures b <==> exists j :: 0 <= j < |rides| && OngoingFor(rides[j], s)
    decreases |rides|
  {
    if |rides| == 0 then false
    else
      OngoingFor(rides[0], s) || InOngoingRide(rides[1..], s)
  }

  /** How many rides have exactly this status. */
  function CountStatus(rides: seq<Ride>, status: string): (n: nat)
    ensures n <= |rides|
    decreases |rides|
  {
    if |rides| == 0 then 0
    else (if rides[0].status == status then 1 else 0) + CountStatus(rides[1..], status)
  }

  /** Counting distributes over concatenation. */
  lemma {:induction false} CountStatusAppend(a: seq<Ride>, b: seq<Ride>, status: string)
    ensures CountStatus(a + b, status) == CountStatus(a, status) + CountStatus(b, status)
    decreases |a|
  {
    if |a| == 0 {
      assert a + b == b;
    } else {
      CountStatusAppend(a[1..], b, status);
      assert (a + b)[0] == a[0] && (a + b)[1..] == a[1..] + b;
    }
  }

  /** `CountStatus` is the number of positions holding a ride with that
      status, which is what the stream filter-and-count computes. */
  lemma {:induction false} CountStatusIsCardinality(rides: seq<Ride>, status: string)
    ensures CountStatus(rides, status) == |set i | 0 <= i < |rides| && rides[i].status == status|
    decreases |rides|
  {
    if |rides| > 0 {
      var init := rides[..|rides| - 1];
      var last := rides[|rides| - 1];
      assert rides == init + [last];
      CountStatusIsCardinality(init, status);
      CountStatusAppend(init, [last], status);
      assert [last][1..] == [];
      var a := set i | 0 <= i < |init| && init[i].status == status;
      var b := set i | 0 <= i < |rides| && rides[i].status == status;
      if last.status == status {
        assert b == a + {|init|};
        assert |init| !in a;
      } else {
        assert b == a;
      }
    }
  }

  /** When every status is one of the five, the per-status counts add up to
      the number of rides. */
  lemma {:induction false} StatusCountsAddUp(rides: seq<Ride>)
    requires forall j :: 0 <= j < |rides| ==> ValidStatus(rides[j].status)
    ensures CountStatus(rides, Requested) + CountStatus(rides, Assigned) + CountStatus(rides, Started)
      + CountStatus(rides, Ended) + CountStatus(rides, Cancelled) == |rides|
    decreases |rides|
  {
    if |rides| > 0 {
      StatusCountsAddUp(rides[1..]);
    }
  }
}
