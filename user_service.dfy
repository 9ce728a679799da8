/** services/user.js: which user fields are missing, the user validator and
    the user factory. */
module UserService {
  import opened Wrappers
  import opened JsValue
  import opened Seqs
  import opened Utils
  import opened Storage

  /** The fields `getMissingFields` examines, in the order it pushes them. */
  const USER_FIELDS: seq<string> := ["name", "email", "age", "role"]

  /** The absence test for one user field: `age` is missing only when it is
      `undefined`; the other fields are missing when falsy. */
  predicate UserFieldMissing(inputs: Bag, field: string) {
    if field == "age" then Prop(inputs, "age") == Undefined else !Truthy(Prop(inputs, field))
  }

  /** The absence test as a callback for `Filter`. */
  function MissingIn(inputs: Bag): string -> bool {
    f => UserFieldMissing(inputs, f)
  }

  /** The missing user fields, in the catalogue order. */
  function MissingUserFields(inputs: Bag): (r: seq<string>)
    ensures forall f :: f in r <==> f in USER_FIELDS && UserFieldMissing(inputs, f)
  {
    Filter(USER_FIELDS, MissingIn(inputs))
  }

  /** `getMissingFields(inputs)`: pushes each absent field in turn. */
  method GetMissingFields(inputs: Bag) returns (missing: seq<string>)
    ensures missing == MissingUserFields(inputs)
  {
    var name, email, age, role := Prop(inputs, "name"), Prop(inputs, "email"), Prop(inputs, "age"), Prop(inputs, "role");
    ghost var n, e, a, r := if !Truthy(name) then ["name"] else [], if !Truthy(email) then ["email"] else [],
      if age == Undefined then ["age"] else [], if !Truthy(role) then ["role"] else [];
    missing := [];
    if !Truthy(name) { missing := missing + ["name"]; }
    assert missing == n;
    if !Truthy(email) { missing := missing + ["email"]; }
    assert missing == n + e;
    if age == Undefined { missing := missing + ["age"]; }
    assert missing == n + e + a;
    if !Truthy(role) { missing := missing + ["role"]; }
    assert missing == n + e + a + r;
    MissingUserFieldsPushes(inputs);
  }

  /** The filter unrolled into the four push-if steps. */
  lemma MissingUserFieldsPushes(inputs: Bag)
    ensures MissingUserFields(inputs) ==
      (if !Truthy(Prop(inputs, "name")) then ["name"] else []) +
      (if !Truthy(Prop(inputs, "email")) then ["email"] else []) +
      (if Prop(inputs, "age") == Undefined then ["age"] else []) +
      (if !Truthy(Prop(inputs, "role")) then ["role"] else [])
  {
    FilterFour("name", "email", "age", "role", MissingIn(inputs));
  }

  /** The result lists missing fields in the order name, email, age, role. */
  lemma MissingUserFieldsOrdered(inputs: Bag)
    ensures IsSubsequence(MissingUserFields(inputs), USER_FIELDS)
  {
    FilterIsSubsequence(USER_FIELDS, MissingIn(inputs));
  }

  /** `age` is missing exactly when it is `undefined`: 0 and null count as
      given. Name, email and role are missing exactly when falsy. */
  lemma MissingTests(inputs: Bag)
    ensures "age" in MissingUserFields(inputs) <==> Prop(inputs, "age") == Undefined
    ensures "name" in MissingUserFields(inputs) <==> !Truthy(Prop(inputs, "name"))
    ensures "email" in MissingUserFields(inputs) <==> !Truthy(Prop(inputs, "email"))
    ensures "role" in MissingUserFields(inputs) <==> !Truthy(Prop(inputs, "role"))
    ensures Prop(inputs, "age") in {Num(0.0), Null} ==> "age" !in MissingUserFields(inputs)
  {
  }

  /** With every field present by its own test, nothing is missing. */
  lemma CompleteInputsMissNothing(inputs: Bag)
    requires Truthy(Prop(inputs, "name")) && Truthy(Prop(inputs, "email"))
    requires Prop(inputs, "age") != Undefined && Truthy(Prop(inputs, "role"))
    ensures MissingUserFields(inputs) == []
  {
  }

  const INVALID_EMAIL := "Invalid email format. Please provide a valid email address."

  /** `validateUser(user)`: fails, as the source's throw, exactly when the
      email is truthy and not a valid address. */
  function ValidateUser(user: Bag): (r: Outcome)
    ensures r == Pass <==> !Truthy(Prop(user, "email")) || ValidateEmailValue(Prop(user, "email"))
    ensures r != Pass ==> r == Fail(INVALID_EMAIL)
  {
    var email := Prop(user, "email");
    if Truthy(email) && !ValidateEmailValue(email) then Fail(INVALID_EMAIL) else Pass
  }

  /** The record `createUser` builds: the four fields copied verbatim. */
  function NewUser(id: int, userData: Bag): (u: User)
    ensures u.id == id
    ensures u.name == Prop(userData, "name") && u.email == Prop(userData, "email")
    ensures u.age == Prop(userData, "age") && u.role == Prop(userData, "role")
  {
    User(id, Prop(userData, "name"), Prop(userData, "email"), Prop(userData, "age"), Prop(userData, "role"))
  }

  /** `createUser(userData)`: appends one record with the next identity. */
  method CreateUser(store: Store, userData: Bag) returns (newUser: User)
    modifies store`users
    ensures newUser == NewUser(GetNextId(UserIds(old(store.users))), userData)
    ensures store.users == old(store.users) + [newUser]
    ensures old(store.Valid()) ==> store.Valid()
  {
    newUser := NewUser(GetNextId(UserIds(store.users)), userData);
    if store.Valid() {
      AppendUserKeepsIncreasing(store.users, newUser);
    }
    store.users := store.users + [newUser];
  }
}
