/**
 * The user store: registered identities, case-insensitive lookup,
 * exact-password authentication and the running-mean driver rating.
 */
module Users {
  import opened Wrappers
  import opened Text

  /** A registered identity. `kind` is "customer", "driver" or "admin" once
      lower-cased; `rating` is the mean of the `ratingCount` ratings received. */
  datatype User = User(name: string, password: string, kind: string, rating: real, ratingCount: nat)

  /** A new user: the role is stored lower-cased and no rating has been received. */
  function NewUser(name: string, password: string, kind: string): (u: User)
    ensures u.name == name && u.password == password
    ensures IsLowerCase(u.kind) && EqualsIgnoreCase(u.kind, kind)
    ensures u.rating == 0.0 && u.ratingCount == 0
  {
    ToLowerFolds(kind);
    User(name, password, ToLower(kind), 0.0, 0)
  }

  /** Exact, case-sensitive password comparison. */
  predicate CheckPassword(u: User, password: string) {
    u.password == password
  }

  /** Folds one more rating into the running mean: the new mean times the new
      count is the old total plus `value`, and the count grows by exactly one. */
  function AddRating(u: User, value: int): (v: User)
    ensures v.ratingCount == u.ratingCount + 1
    ensures v.rating * v.ratingCount as real == u.rating * u.ratingCount as real + value as real
    ensures v.name == u.name && v.password == u.password && v.kind == u.kind
  {
    u.(rating := (u.rating * u.ratingCount as real + value as real) / (u.ratingCount + 1) as real,
       ratingCount := u.ratingCount + 1)
  }

  /** Sum of a list of ratings. */
  function Sum(values: seq<int>): int {
    if |values| == 0 then 0 else Sum(values[..|values| - 1]) + values[|values| - 1]
  }

  /** The user after receiving `values` in order. */
  function AddRatings(u: User, values: seq<int>): User {
    if |values| == 0 then u else AddRating(AddRatings(u, values[..|values| - 1]), values[|values| - 1])
  }

  /** Starting from a user with no ratings, the stored rating is the arithmetic
      mean of every rating received and the count is their number. */
  lemma {:induction false} RatingIsMean(u: User, values: seq<int>)
    requires u.ratingCount == 0
    ensures AddRatings(u, values).ratingCount == |values|
    ensures AddRatings(u, values).rating * |values| as real == Sum(values) as real
    ensures |values| > 0 ==> AddRatings(u, values).rating == Sum(values) as real / |values| as real
  {
    if |values| > 0 {
      RatingIsMean(u, values[..|values| - 1]);
    }
  }

  /** A fresh user rated 5 and then 1 has rating 3. */
  lemma FiveThenOneIsThree(name: string, password: string)
    ensures AddRating(AddRating(NewUser(name, password, "driver"), 5), 1).rating == 3.0
  {
    var u := NewUser(name, password, "driver");
    assert AddRatings(u, [5, 1]) == AddRating(AddRating(u, 5), 1) by {
      assert [5, 1][..1] == [5];
      assert [5][..0] == [];
      assert AddRatings(u, [5]) == AddRating(u, 5);
    }
    RatingIsMean(u, [5, 1]);
    assert Sum([5, 1]) == 6 by {
      assert [5, 1][..1] == [5];
      assert [5][..0] == [];
    }
  }

  /** The test `User.userExists` applies to one stored user. */
  predicate NameMatches(u: User, name: string) {
    EqualsIgnoreCase(u.name, name)
  }

  /** `User.userExists`: some stored user has this name, ignoring case. */
  function UserExists(users: seq<User>, name: string): (b: bool)
    ensures b <==> exists i :: 0 <= i < |users| && NameMatches(users[i], name)
    decreases |users|
  {
    if |users| == 0 then false
    else NameMatches(users[0], name) || UserExists(users[1..], name)
  }

  /** The test `User.authenticate` applies to one stored user. */
  predicate Credentials(u: User, name: string, password: string) {
    EqualsIgnoreCase(u.name, name) && CheckPassword(u, password)
  }

  /** `User.authenticate`: the position of the first stored user whose name
      matches ignoring case and whose password matches exactly, or None. */
  function Authenticate(users: seq<User>, name: string, password: string): (r: Option<nat>)
    ensures r.Some? ==> r.value < |users| && Credentials(users[r.value], name, password)
    ensures r.Some? ==> forall j :: 0 <= j < r.value ==> !Credentials(users[j], name, password)
    ensures r.None? <==> forall j :: 0 <= j < |users| ==> !Credentials(users[j], name, password)
    decreases |users|
  {
    if |users| == 0 then None
    else if Credentials(users[0], name, password) then Some(0)
    else
      match Authenticate(users[1..], name, password)
      case None => None
      case Some(k) => Some(k + 1)
  }

  /** Only a user whose name is known can log in. */
  lemma AuthenticatedNameExists(users: seq<User>, name: string, password: string)
    requires Authenticate(users, name, password).Some?
    ensures UserExists(users, name)
  {
    var k := Authenticate(users, name, password).value;
    assert NameMatches(users[k], name);
  }

  /** When stored names are unique ignoring case, the user found is the one
      user with that name, and only its exact password logs in. */
  lemma AuthenticateUnique(users: seq<User>, name: string, password: string, i: nat)
    requires forall a, b :: 0 <= a < b < |users| ==> !EqualsIgnoreCase(users[a].name, users[b].name)
    requires i < |users| && NameMatches(users[i], name)
    ensures Authenticate(users, name, password) == (if users[i].password == password then Some(i) else None)
  {
    forall j | 0 <= j < |users| && j != i
      ensures !NameMatches(users[j], name)
    {
      EqualsIgnoreCaseIsEquivalence(users[j].name, name, users[i].name);
      EqualsIgnoreCaseIsEquivalence(users[i].name, users[j].name, name);
    }
  }
}
