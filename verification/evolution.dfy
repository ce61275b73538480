/**
 * How the registry may change over time, whatever is read: users, sessions
 * and rides are only ever appended; a user keeps its name, password and
 * role; a login is permanent and a torn-down session never runs again; a
 * ride keeps its id, places and customer, its offer book only grows, and
 * once assigned it keeps its driver and its book for good; a rated ride
 * stays rated.
 */
module Evolution {
  import opened Wrappers
  import opened Text
  import opened Numerals
  import opened Users
  import opened Rides
  import opened Registry
  import opened Protocol

  /** `b` is a later state of user `a`. */
  predicate UserEvolves(a: User, b: User) {
    && b.name == a.name && b.password == a.password && b.kind == a.kind
    && a.ratingCount <= b.ratingCount
  }

  /** `b` is a later state of ride `a`. */
  predicate RideEvolves(a: Ride, b: Ride) {
    && b.id == a.id && b.pickup == a.pickup && b.destination == a.destination && b.customer == a.customer
    && a.offers.Keys <= b.offers.Keys
    && (a.isAssigned ==> b.isAssigned && b.driver == a.driver && b.offers == a.offers)
    && (a.rated ==> b.rated)
  }

  /** `r'` is a later state of registry `r`. */
  ghost predicate Evolves(r: Registry, r': Registry) {
    && |r.users| <= |r'.users|
    && (forall u :: 0 <= u < |r.users| ==> UserEvolves(r.users[u], r'.users[u]))
    && |r.sessions| <= |r'.sessions|
    && (forall t :: 0 <= t < |r.sessions| && r.sessions[t].user.Some? ==> r'.sessions[t].user == r.sessions[t].user)
    && (forall t :: 0 <= t < |r.sessions| && !r.sessions[t].running ==> !r'.sessions[t].running)
    && |r.rides| <= |r'.rides|
    && (forall i :: 0 <= i < |r.rides| ==> RideEvolves(r.rides[i], r'.rides[i]))
    && r.nextRideId <= r'.nextRideId
  }

  lemma EvolvesTransitive(r1: Registry, r2: Registry, r3: Registry)
    requires Evolves(r1, r2) && Evolves(r2, r3)
    ensures Evolves(r1, r3)
  {
    forall i | 0 <= i < |r1.rides| ensures RideEvolves(r1.rides[i], r3.rides[i]) {
      assert RideEvolves(r1.rides[i], r2.rides[i]) && RideEvolves(r2.rides[i], r3.rides[i]);
    }
    forall u | 0 <= u < |r1.users| ensures UserEvolves(r1.users[u], r3.users[u]) {
      assert UserEvolves(r1.users[u], r2.users[u]) && UserEvolves(r2.users[u], r3.users[u]);
    }
  }

  lemma EvolvesReflexive(r: Registry)
    ensures Evolves(r, r)
  {
  }

  /** Changing ride `k` into a later state of itself is an evolution. */
  lemma RideChangeEvolves(r: Registry, k: nat, ride: Ride)
    requires k < |r.rides| && RideEvolves(r.rides[k], ride)
    ensures Evolves(r, r.(rides := r.rides[k := ride]))
  {
  }

  lemma TeardownEvolves(r: Registry, s: nat)
    requires Wf(r) && s < |r.sessions|
    ensures Evolves(r, Teardown(r, s))
  {
  }

  lemma RegisterEvolves(r: Registry, s: nat, name: string, password: string, role: string)
    requires Wf(r) && s < |r.sessions|
    ensures Evolves(r, Register(r, s, name, password, role).reg)
  {
    var r' := Register(r, s, name, password, role).reg;
    assert forall u :: 0 <= u < |r.users| ==> r'.users[u] == r.users[u];
  }

  lemma LoginEvolves(r: Registry, s: nat, name: string, password: string)
    requires Wf(r) && s < |r.sessions| && r.sessions[s].user.None?
    ensures Evolves(r, Login(r, s, name, password).reg)
  {
  }

  lemma AuthStepEvolves(r: Registry, s: nat, line: string)
    requires Wf(r) && s < |r.sessions| && r.sessions[s].user.None?
    ensures Evolves(r, AuthStep(r, s, line).reg)
  {
    var t := Fields(line, ':');
    if |t| >= 4 && EqualsIgnoreCase(t[0], "REGISTER") {
      assert AuthStep(r, s, line) == Register(r, s, t[1], t[2], t[3]);
      RegisterEvolves(r, s, t[1], t[2], t[3]);
    } else if |t| >= 3 && !EqualsIgnoreCase(t[0], "REGISTER") && EqualsIgnoreCase(t[0], "LOGIN") {
      assert AuthStep(r, s, line) == Login(r, s, t[1], t[2]);
      LoginEvolves(r, s, t[1], t[2]);
    } else {
      assert AuthStep(r, s, line).reg == r;
      EvolvesReflexive(r);
    }
  }

  lemma RequestEvolves(r: Registry, s: nat, tokens: seq<string>)
    requires Wf(r) && LoggedIn(r, s)
    ensures Evolves(r, Request(r, s, tokens).reg)
  {
  }

  lemma CommitOfferEvolves(r: Registry, s: nat, k: nat, id: int, fare: real)
    requires Wf(r) && LoggedIn(r, s) && k < |r.rides| && !r.rides[k].isAssigned
    ensures Evolves(r, CommitOffer(r, s, k, id, fare).reg)
  {
    var ride := AddOffer(r.rides[k], NameOf(r, s), fare);
    assert RideEvolves(r.rides[k], ride);
  }

  lemma OfferEvolves(r: Registry, s: nat, tokens: seq<string>)
    requires Wf(r) && LoggedIn(r, s)
    ensures Evolves(r, Offer(r, s, tokens).reg)
  {
    if OfferAccepted(r, s, tokens) {
      var id := ParseInt(tokens[1]).value;
      var k := FindRide(r.rides, id).value;
      CommitOfferEvolves(r, s, k, id, ParseFare(tokens[2]).value);
    }
  }

  lemma CommitAssignmentEvolves(r: Registry, k: nat, ride: Ride, d: nat, id: int)
    requires Wf(r) && k < |r.rides| && LoggedIn(r, d)
    requires ride.driver == Some(d) && ride.customer == r.rides[k].customer
    requires !r.rides[k].isAssigned && ride == r.rides[k].(driver := ride.driver, status := ride.status)
    ensures Evolves(r, CommitAssignment(r, k, ride, d, id))
  {
    RideChangeEvolves(r, k, ride.(isAssigned := true));
  }

  lemma AssignEvolves(r: Registry, s: nat, tokens: seq<string>)
    requires Wf(r) && LoggedIn(r, s)
    ensures Evolves(r, Assign(r, s, tokens).reg)
  {
    if AssignAccepted(r, s, tokens) {
      var id := ParseInt(tokens[1]).value;
      var k := FindRide(r.rides, id).value;
      var (ride, d) := AssignDriver(r.rides[k], tokens[2], ConnectedDrivers(r)).value;
      assert Assign(r, s, tokens).reg == CommitAssignment(r, k, ride, d, id);
      CommitAssignmentEvolves(r, k, ride, d, id);
    } else {
      assert Assign(r, s, tokens).reg == r;
      EvolvesReflexive(r);
    }
  }

  /** A new status for ride `k`, possibly freeing session `s`, is an evolution. */
  lemma StatusChangeEvolves(r: Registry, k: nat, st: string, s: nat, free: bool)
    requires k < |r.rides| && s < |r.sessions|
    ensures Evolves(r, r.(rides := r.rides[k := r.rides[k].(status := st)],
                          sessions := if free then r.sessions[s := r.sessions[s].(busy := false)] else r.sessions))
  {
    RideChangeEvolves(r, k, r.rides[k].(status := st));
  }

  lemma UpdateEvolves(r: Registry, s: nat, tokens: seq<string>)
    requires Wf(r) && LoggedIn(r, s)
    ensures Evolves(r, Update(r, s, tokens).reg)
  {
    if UpdateAccepted(r, s, tokens) {
      var st := ToUpper(tokens[2]);
      StatusChangeEvolves(r, FindRide(r.rides, ParseInt(tokens[1]).value).value, st, s, st == Ended);
    } else {
      EvolvesReflexive(r);
    }
  }

  lemma CommitRatingEvolves(r: Registry, s: nat, k: nat, b: int, c: int, x: int, comment: string)
    requires Wf(r) && LoggedIn(r, s) && k < |r.rides| && ScoresInRange(b, c, x)
    ensures Evolves(r, CommitRating(r, s, k, b, c, x, comment).reg)
  {
    var r1 := r.(rides := r.rides[k := r.rides[k].(rated := true)]);
    RideChangeEvolves(r, k, r.rides[k].(rated := true));
    if r.rides[k].driver.None? {
      TeardownEvolves(r1, s);
      EvolvesTransitive(r, r1, Teardown(r1, s));
    } else {
      var u := r.sessions[r.rides[k].driver.value].user.value;
      var r2 := CommitRating(r, s, k, b, c, x, comment).reg;
      assert r2 == r1.(users := r.users[u := AddRating(r.users[u], Overall(b, c, x))]);
      assert UserEvolves(r.users[u], r2.users[u]);
    }
  }

  lemma RateEvolves(r: Registry, s: nat, tokens: seq<string>)
    requires Wf(r) && LoggedIn(r, s)
    ensures Evolves(r, Rate(r, s, tokens).reg)
  {
    if RateAccepted(r, s, tokens) {
      var k := FindRide(r.rides, ParseInt(tokens[1]).value).value;
      var (b, c, x) := (ParseInt(tokens[2]).value, ParseInt(tokens[3]).value, ParseInt(tokens[4]).value);
      assert Rate(r, s, tokens).reg == CommitRating(r, s, k, b, c, x, tokens[5]).reg;
      CommitRatingEvolves(r, s, k, b, c, x, tokens[5]);
    } else {
      assert Rate(r, s, tokens).reg == r;
      EvolvesReflexive(r);
    }
  }

  lemma CommitCancelEvolves(r: Registry, k: nat)
    requires Wf(r) && k < |r.rides|
    ensures Evolves(r, CommitCancel(r, k))
  {
    var r' := CommitCancel(r, k);
    assert RideEvolves(r.rides[k], r'.rides[k]);
    assert forall i :: 0 <= i < |r.rides| && i != k ==> r'.rides[i] == r.rides[i];
  }

  lemma CancelEvolves(r: Registry, s: nat)
    requires Wf(r) && LoggedIn(r, s)
    ensures Evolves(r, Cancel(r, s).reg)
  {
    var k := LatestActive(r.rides, s);
    if IsCustomer(UserOf(r, s)) && k.Some? && r.rides[k.value].status != Started {
      assert Cancel(r, s).reg == CommitCancel(r, k.value);
      CommitCancelEvolves(r, k.value);
    } else {
      assert Cancel(r, s).reg == r;
      EvolvesReflexive(r);
    }
  }

  lemma CommandStepEvolves(r: Registry, s: nat, line: string)
    requires Wf(r) && LoggedIn(r, s)
    ensures Evolves(r, CommandStep(r, s, line).reg)
  {
    var rep := CommandStep(r, s, line);
    var tokens := Tokens(line, ':');
    EvolvesReflexive(r);
    if |tokens| > 0 {
      var verb := ToUpper(tokens[0]);
      if verb == "REQUEST" {
        assert rep == Request(r, s, tokens);
        RequestEvolves(r, s, tokens);
      } else if verb == "OFFER" {
        assert rep == Offer(r, s, tokens);
        OfferEvolves(r, s, tokens);
      } else if verb == "ASSIGN" {
        assert rep == Assign(r, s, tokens);
        AssignEvolves(r, s, tokens);
      } else if verb == "UPDATE" {
        assert rep == Update(r, s, tokens);
        UpdateEvolves(r, s, tokens);
      } else if verb == "RATE" {
        assert rep == Rate(r, s, tokens);
        RateEvolves(r, s, tokens);
      } else if verb == "CANCEL" {
        assert rep == Cancel(r, s);
        CancelEvolves(r, s);
      } else if verb == "DISCONNECT" && !InOngoingRide(r.rides, s) {
        assert rep.reg == Teardown(r, s);
        TeardownEvolves(r, s);
      } else {
        assert rep.reg == r;
      }
    }
  }

  /** Every event moves the registry to a later state of itself. */
  lemma ApplyEvolves(r: Registry, e: Event)
    requires Wf(r)
    ensures Evolves(r, Apply(r, e))
  {
    match e
    case Open =>
    case Line(s, text) =>
      if s < |r.sessions| && r.sessions[s].running {
        if r.sessions[s].user.None? {
          AuthStepEvolves(r, s, text);
        } else {
          CommandStepEvolves(r, s, text);
        }
      }
    case Close(s) =>
      if s < |r.sessions| && r.sessions[s].running {
        TeardownEvolves(r, s);
      }
  }

  /** Along any history, each earlier registry evolves into every later one. */
  lemma {:induction false} RunEvolves(events: seq<Event>, n: nat)
    requires n <= |events|
    ensures Evolves(Run(events[..n]), Run(events))
    decreases |events|
  {
    assert events[..|events|] == events;
    if n < |events| {
      var prefix := events[..|events| - 1];
      assert Run(events) == Apply(Run(prefix), events[|events| - 1]);
      assert events[..n] == prefix[..n];
      RunEvolves(prefix, n);
      ApplyEvolves(Run(prefix), events[|events| - 1]);
      EvolvesTransitive(Run(events[..n]), Run(prefix), Run(events));
    } else {
      assert Evolves(Run(events), Run(events));
    }
  }
}
