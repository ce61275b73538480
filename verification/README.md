# Ride-dispatch server, modelled in Dafny

This project models the server side of a small ride-hailing system. Customers,
drivers and one administrator connect over TCP and exchange `:`-separated text
lines with a thread (`ClientHandler.run`) per connection:

- Before login a line is `REGISTER:name:password:role` or `LOGIN:name:password`.
- After login the commands are `REQUEST`, `VIEW`, `OFFER`, `ASSIGN`, `UPDATE`,
  `RATE`, `CANCEL`, `STATS` and `DISCONNECT`.

All connections share one registry:

- the users;
- the connected drivers and customers;
- the rides.

## How the model is built

- **The registry is a value** (`Registry.Registry`). It holds users, every
  session ever opened, the driver and customer role lists, the rides, and the
  next ride id. A session (connection) is named by its position in
  `sessions`. Users and rides are named the same way. A ride refers to its
  customer and driver by session position, just as the Java `Ride` holds
  `ClientHandler` references.
- **A torn-down session is never removed.** Rides may still refer to it. Its
  `running` flag becomes false instead.
- **Every handler is a pure function.** It returns a `Reply`: the new registry
  and the messages sent, in order, each addressed to a session. Message bodies
  are a datatype (`Registry.Body`). Every `ERROR:` line is
  `Error(kind)`, where the kind says which guard refused.
- **One line is one `Protocol.Step`.**
  - Before login, the line is split with `split(":", -1)` (`Text.Fields`) and
    handled by `Protocol.AuthStep`.
  - After login, it is split with `split(":")` (`Text.Tokens`: trailing empty
    fields are dropped) and dispatched on the upper-cased verb by
    `Protocol.CommandStep`.
  - The `finally` block of `run` is `Registry.Teardown`.
- **A history is a sequence of events** (`Protocol.Event`):
  - a connection opens;
  - a session sends a line;
  - a connection closes.
  `Protocol.Run` folds the events over the seeded registry (`Registry.Init`).
- **`Invariants`** defines the global invariant `Inv`. It is proved to hold
  in every registry any history reaches (`Invariants.RunKeepsInv`). It says:
  - user names are unique ignoring case;
  - exactly the running logged-in drivers and customers are in the role lists,
    without repeats;
  - ride `i` has id `i + 1` and a known status;
  - assignment, driver and status agree;
  - only drivers drive and only customers request;
  - a pending offer names an existing, unassigned ride.
- **`Evolution`** proves what never goes backwards along any history
  (`Evolution.RunEvolves`):
  - users, sessions and rides are only appended;
  - a user keeps its name, password and role;
  - a login is permanent;
  - a ride keeps its id, places and customer;
  - once assigned, a ride keeps its driver and offers;
  - a rated ride stays rated.
- **`Corrected`** holds the two defects found while stating "a customer has at
  most one active ride". For each it gives:
  - a concrete registry where the code as written breaks that rule;
  - the corrected handlers, with the rule proved along every history.

## Model

| member | source | states |
|---|---|---|
| Text.EqualsIgnoreCaseIffSameFold | src/User.java:39 | comparing names ignoring case is the same as comparing their lower-cased (or upper-cased) forms, both directions |
| Text.EqualsIgnoreCaseIsEquivalence | src/User.java:43-48 | the case-insensitive name comparison is reflexive, symmetric and transitive |
| Text.ToUpperFolds | src/ClientHandler.java:130 | the upper-cased verb has no small letters, still equals the input ignoring case, and upper-casing twice changes nothing |
| Text.Fields | src/ClientHandler.java:69 | `split(":", -1)` yields at least one field, no field contains the separator, and there is exactly one field iff the line has no separator |
| Text.JoinFields | src/ClientHandler.java:69 | joining the fields of a line with the separator gives the line back |
| Text.FieldsJoin | src/ClientHandler.java:69 | splitting a join of separator-free fields gives those fields back |
| Text.Tokens | src/ClientHandler.java:127-128 | `split(":")` is the list of fields with only trailing empty fields removed; a line without separator is one token; with a separator the last token is non-empty |
| Numerals.ParseInt | src/ClientHandler.java:188 | `Integer.parseInt` succeeds exactly on an optional sign followed by decimal digits whose signed value is within the 32-bit range, and then returns that signed value |
| Numerals.ParseShowInt | src/ClientHandler.java:264 | printing any 32-bit integer and parsing it back gives that integer |
| Numerals.ParseFare | src/ClientHandler.java:189 | a fare parses exactly when it is a plain decimal numeral |
| Numerals.ParseFareWhole | src/ClientHandler.java:189 | a whole number written in digits parses to its own value |
| Users.NewUser | src/User.java:10-14 | a new user keeps name and password, stores the role lower-cased but equal ignoring case, and has no rating |
| Users.AddRating | src/User.java:29-31 | one rating raises the count by one and keeps mean times count equal to the previous total plus the new score |
| Users.RatingIsMean | src/User.java:29-31 | after any sequence of ratings the stored rating is their arithmetic mean |
| Users.FiveThenOneIsThree | src/User.java:30 | a fresh driver rated 5 and then 1 has rating 3 |
| Users.UserExists | src/User.java:38-40 | true iff some stored user has the name ignoring case |
| Users.Authenticate | src/User.java:43-48 | finds the first user whose name matches ignoring case and whose password matches exactly, and none iff there is no such user |
| Users.AuthenticatedNameExists | src/User.java:43-48 | a successful login implies the name is registered |
| Users.AuthenticateUnique | src/User.java:43-48 | with case-insensitively unique names, login finds the named user iff its password matches |
| Rides.UpdateStatus | src/Ride.java:57-59 | the stored status is the argument upper-cased and nothing else in the ride changes |
| Rides.UpdateStatusKeepsUpperCase | src/Ride.java:57-59 | the statuses the protocol passes (START, END, CANCELLED) are stored unchanged |
| Rides.AddOffer | src/Ride.java:70-72 | the driver's fare is recorded under its exact name, replacing an earlier one; other drivers' offers and the rest of the ride are untouched |
| Rides.FindRide | src/Ride.java:99-106 | finds the first ride with the id, and none iff no ride has it |
| Rides.FindRideNumbered | src/Ride.java:99-106 | when ride `i` has id `i + 1`, lookup by id is indexing, and ids outside 1..n are not found |
| Rides.FirstNamed | src/Ride.java:87-93 | finds the first connected driver whose name matches ignoring case, and none iff none matches |
| Rides.AssignDriver | src/Ride.java:84-96 | fails iff the name has no offer or no connected driver matches it; otherwise the ride gets the first matching driver and status ASSIGNED and nothing else changes |
| Rides.HasActiveRide | src/ClientHandler.java:135-137 | true iff the customer owns a ride that is neither END nor CANCELLED |
| Rides.LatestActive | src/ClientHandler.java:162-166 | picks an active ride of the customer with the largest id, and none iff the customer has no active ride |
| Rides.InOngoingRide | src/ClientHandler.java:466-471 | true iff the session is the customer or the driver of a ride in START |
| Rides.StatusCountsAddUp | src/ClientHandler.java:427-430 | with valid statuses, the REQUESTED, ASSIGNED, START and END counts plus the CANCELLED count equal the number of rides |
| Registry.Init | src/Server.java:11-20 | the seeded registry has the single user `admin` with password `admin123`, the admin type and no ratings; no sessions, role-list entries or rides; the first ride id is 1 |
| Registry.Connect | src/ClientHandler.java:12-19 | a new session is running, has no user, is not busy, has no pending offer, and nothing else changes |
| Registry.RemoveFirst | src/ClientHandler.java:484 | `List.remove` drops exactly the first occurrence of the session, the others keeping their order, and changes nothing when it is absent |
| Registry.RemoveFirstMembers | src/ClientHandler.java:484 | removal keeps every other session and adds none; from a list without repeats, the session is gone and the list still has no repeats |
| Registry.AddToRoleList | src/ClientHandler.java:473-479 | a driver joins the driver list, a customer the customer list, an admin neither |
| Registry.Teardown | src/ClientHandler.java:457-463 | the session stops running; a logged-in driver or customer loses the first occurrence of its session in its role list, the rest of the list keeping its order; users and rides are untouched |
| Registry.ConnectedDrivers | src/Ride.java:87-88 | lists the connected drivers in list order, each with its username |
| Registry.Broadcast | src/ClientHandler.java:491-503 | every idle connected driver gets a NEW_RIDE notice, only idle drivers get one, and the customer hears "no drivers" iff every connected driver is busy |
| Registry.ClearPending | src/ClientHandler.java:239-243 | exactly the connected drivers with a pending offer on the ride lose it, and nothing else changes |
| Protocol.Register | src/ClientHandler.java:78-105 | refuses the admin role and taken names; otherwise appends one user with role driver or customer, sends REGISTERED, and leaves the session logged out |
| Protocol.StoredKind | src/ClientHandler.java:88-91 | the role stored by REGISTER is exactly "driver" or "customer" |
| Protocol.Login | src/ClientHandler.java:106-116 | bad credentials are refused; otherwise the session is logged in as the first matching user and joins its role list |
| Protocol.AuthStep | src/ClientHandler.java:63-121 | a line with fewer than three fields is refused; REGISTER (ignoring case) registers, or is refused without a type; otherwise LOGIN logs in as the user whose credentials match; any other verb is refused; a session becomes logged in only through a matching LOGIN |
| Protocol.Request | src/ClientHandler.java:131-156 | refuses non-customers, customers with an active ride and short lines; otherwise appends a REQUESTED ride with the next id and broadcasts it |
| Protocol.View | src/ClientHandler.java:158-175 | read-only; a customer with an active ride is always told the status of its latest active ride, and one without is told it has none |
| Protocol.CommitOffer | src/ClientHandler.java:194-201 | the ride's book maps the driver's name to the fare with every other entry kept, the driver's pending offer is the ride, every other ride, session and user is unchanged, and the customer is sent the whole book |
| Protocol.Offer | src/ClientHandler.java:178-211 | refuses non-drivers, drivers with a pending offer and every failed guard without change; otherwise the accepted offer's effect |
| Protocol.CommitAssignment | src/ClientHandler.java:231-243 | the ride is marked assigned, the chosen driver becomes busy, and every connected driver's pending offer on the ride is cleared |
| Protocol.Assign | src/ClientHandler.java:213-256 | refuses non-customers, foreign rides, assigned rides and unknown drivers without change; otherwise assigns the first matching connected driver that made an offer |
| Protocol.Update | src/ClientHandler.java:258-310 | only the assigned driver may move a ride; START is refused only on a started ride, END only after START; END frees the driver and the customer is notified |
| Protocol.UpdateRefusals | src/ClientHandler.java:269-292 | which error a refused update reports, and that START and END are accepted exactly under the guards the code checks |
| Protocol.Overall | src/ClientHandler.java:357-359 | the overall score is the mean of the three scores truncated, and lies in 1..5 |
| Protocol.CommitRating | src/ClientHandler.java:355-367 | the ride is marked rated and the driver's rating absorbs the overall score; a ride without a driver ends the session after marking |
| Protocol.Rate | src/ClientHandler.java:312-374 | refuses out-of-range scores, unknown or foreign rides, rides not ended and rides already rated, changing nothing; otherwise the rating's effect |
| Protocol.RateRefusals | src/ClientHandler.java:327-353 | which error a refused rating reports once its numbers parse |
| Protocol.CommitCancel | src/ClientHandler.java:391-404 | the ride becomes CANCELLED, its driver is freed, and every connected driver's pending offer on it is cleared |
| Protocol.Cancel | src/ClientHandler.java:377-412 | a customer's latest active ride is cancelled unless started, and no active ride is reported; on success the customer is told and every connected driver, and nobody else, gets the CANCELLED update, once each when the driver list has no repeats |
| Protocol.Stats | src/ClientHandler.java:416-439 | read-only; an admin gets the user, role-list and ride counts, the number of admin users and the number of rides in each of REQUESTED, ASSIGNED, START and END; anyone else is refused |
| Protocol.CountAdminsIsCardinality | src/ClientHandler.java:418-420 | the reported admin count is the number of users whose type is admin ignoring case |
| Rides.CountStatusIsCardinality | src/ClientHandler.java:427-430 | each reported status count is the number of rides whose status equals that status exactly |
| Protocol.StatsAfterRequest | src/ClientHandler.java:416-439 | across an accepted REQUEST an admin's report gains one ride and one REQUESTED, and every other figure stays the same |
| Protocol.StatusCountsBound | src/ClientHandler.java:427-430 | the four reported status counts together never exceed the number of rides |
| Protocol.Disconnect | src/ClientHandler.java:441-449 | refused while the session is in a started ride; otherwise the session is torn down |
| Protocol.Step | src/ClientHandler.java:60-65 | a line on a stopped session does nothing; before login a line goes to the authentication phase, after login to the command phase |
| Protocol.CommandStep | src/ClientHandler.java:124-453 | a line with no tokens is ignored; the upper-cased verb selects the handler of each of the nine commands; any other verb gets the unknown-command error and changes nothing |
| Invariants.InitInv | src/Server.java:17-20 | the seeded registry satisfies the invariant |
| Invariants.RideAt | src/Ride.java:18-19 | under the invariant, the ride with id `n` is at position `n - 1` |
| Invariants.AuthStepKeepsInv | src/ClientHandler.java:63-121 | registration and login keep the invariant |
| Invariants.RequestKeepsInv | src/ClientHandler.java:131-156 | REQUEST keeps the invariant |
| Invariants.OfferKeepsInv | src/ClientHandler.java:178-211 | OFFER keeps the invariant |
| Invariants.AssignKeepsInv | src/ClientHandler.java:213-256 | ASSIGN keeps the invariant |
| Invariants.UpdateKeepsInv | src/ClientHandler.java:258-310 | UPDATE keeps the invariant |
| Invariants.RateFindsDriver | src/ClientHandler.java:358-359 | under the invariant an accepted rating always finds the driver, so it never ends the session |
| Invariants.RateKeepsInv | src/ClientHandler.java:312-374 | RATE keeps the invariant |
| Invariants.CancelKeepsInv | src/ClientHandler.java:377-412 | CANCEL keeps the invariant |
| Invariants.DisconnectKeepsInv | src/ClientHandler.java:441-449 | DISCONNECT keeps the invariant |
| Invariants.TeardownKeepsInv | src/ClientHandler.java:457-463 | closing a connection keeps the invariant |
| Invariants.StepKeepsInv | src/ClientHandler.java:125-130 | every line keeps the invariant |
| Invariants.RunKeepsInv | src/ClientHandler.java:60-464 | every registry reachable by any history satisfies the invariant |
| Invariants.LoginFindsTheNamedUser | src/ClientHandler.java:92-95 | since registration rejects taken names, login finds the named user iff the password matches |
| Invariants.StatsAccountForEveryRide | src/ClientHandler.java:426-430 | the four status counts plus the CANCELLED count equal the number of rides |
| Invariants.AssignOnce | src/ClientHandler.java:231 | ASSIGN never changes an assigned ride |
| Invariants.RateOnce | src/ClientHandler.java:350-355 | RATE never changes a rated ride |
| Invariants.EndedRideHasDriver | src/ClientHandler.java:358 | under the invariant every ended ride has a driver |
| Evolution.EvolvesTransitive | src/ClientHandler.java:60-464 | evolution composes |
| Evolution.ApplyEvolves | src/ClientHandler.java:60-464 | every event moves the registry to a later state of itself |
| Evolution.RunEvolves | src/ClientHandler.java:60-464 | along every history each earlier registry evolves into every later one |
| Corrected.UpdateRestartsCancelledRide | src/ClientHandler.java:283-287 | as written, a driver can START a cancelled ride of a customer who already has an active ride, leaving two active rides |
| Corrected.AssignRevivesCancelledRide | src/ClientHandler.java:231-234 | as written, a customer can ASSIGN a cancelled, never-assigned ride, leaving two active rides |
| Corrected.UpdateFixed | src/ClientHandler.java:283-287 | the corrected update behaves exactly as the original except that START by the ride's driver on a ride not in ASSIGNED is refused with no change, so START from ASSIGNED and END from START are still accepted |
| Corrected.AssignFixed | src/ClientHandler.java:231-234 | the corrected assignment behaves exactly as the original except that the owner's ASSIGN of an unassigned ride not in REQUESTED is refused with no change, so ASSIGN on a REQUESTED ride is still accepted |
| Corrected.UpdateFixedRefusesRestart | src/ClientHandler.java:283-287 | the corrected update refuses the restart shown above |
| Corrected.AssignFixedRefusesRevival | src/ClientHandler.java:231-234 | the corrected assignment refuses the revival shown above |
| Corrected.StepFixedKeepsInv | src/ClientHandler.java:125-130 | the corrected step keeps the global invariant |
| Corrected.StepFixedKeepsOneActive | src/ClientHandler.java:134-141 | with the corrections, no line gives a customer a second active ride |
| Corrected.RunFixedKeepsOneActive | src/ClientHandler.java:134-141 | with the corrections, every reachable registry satisfies the invariant and each customer has at most one active ride |

## Left out

- Concurrency is left out. Each connection runs on its own thread and the
  shared lists are `synchronizedList`s. The model applies one event at a time,
  so interleavings inside a handler (for example, the role list changing during
  the ASSIGN scan) are not modelled.
- Sockets and stream I/O are left out. A read that returns `null` or throws
  `IOException` is the `Close` event. Both end in the same `finally` block.
- Exact message texts are left out. A message is a structured `Body`.
- Console logging (`System.out` and `System.err`) is left out.
- Case folding is ASCII only. Java's `toUpperCase`, `toLowerCase` and
  `equalsIgnoreCase` also fold other Unicode letters.
- `Double.parseDouble` is modelled only on plain decimal numerals: an optional
  sign, digits, and an optional point with digits. Exponents, `NaN`,
  `Infinity`, hex forms, type suffixes and surrounding blanks parse as errors.
  Fares are exact reals, not doubles.
- Numerals.ParseInt: only the ASCII digits `0`-`9` are digits. Java's
  `Integer.parseInt` also accepts the decimal digits of other scripts, such as
  Arabic-Indic digits, which the model rejects as malformed.
- Numerals.ParseFare: the parsed fare's value is not stated in its contract;
  `Numerals.ParseFareWhole` covers whole numbers only.
- Ride ids are unbounded. The `idCounter` wraps after 2^31 - 1 rides in Java.
- The order of the `OFFERS:` list is left out. It follows `HashMap` iteration
  order; the model's message carries the whole offer map instead.
- The `RATED` message is modelled as a structured notice. It carries the ride
  id, the three scores, the comment and the driver's new rating.
- A driver's rating is an exact real, and `Users.AddRating` updates it by the
  exact running mean. In Java, `rating` is a `double`, so its stored and
  reported values can differ from the model's by rounding.
- A rating of a ride without a driver throws a `NullPointerException` in Java.
  It is modelled as the exception leaving `run`: the ride is already marked
  rated, and the session is torn down. `Invariants.RateFindsDriver` shows that
  no reachable registry gets there.
- `Client.java`, `Client2.java` and `Handler2.java` are not part of this model.
  `Server.main` (the accept loop) is the `Open` event.
- Protocol.Step: its contract routes each line to `Protocol.AuthStep` or
  `Protocol.CommandStep` rather than restating their contracts. Those two
  route to the handlers, and the handlers' own contracts say what each command does.

## Findings

| source | as written | input that shows it | evidently intended | confidence | as-written member | corrected member |
|---|---|---|---|---|---|---|
| src/ClientHandler.java:283-287 | UPDATE refuses START only when the ride is already in START, so START is accepted on an END or CANCELLED ride | driver `d` of the cancelled ride 1 sends `UPDATE:1:START` while its customer has ride 3 REQUESTED | START only from ASSIGNED, so a finished ride never becomes active again | not executed | Corrected.UpdateRestartsCancelledRide | Corrected.UpdateFixed |
| src/ClientHandler.java:231-234 | ASSIGN checks only the assigned flag, so a CANCELLED ride that was never assigned becomes ASSIGNED | customer `cc` sends `ASSIGN:2:d` for its cancelled ride 2, which holds an offer from `d`, while ride 3 is REQUESTED | ASSIGN only on a REQUESTED ride | not executed | Corrected.AssignRevivesCancelledRide | Corrected.AssignFixed |
