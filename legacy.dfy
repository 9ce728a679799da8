/** index.js: the original single-file server. It keeps its own user list
    (seeded with one profile), its own five-role catalogue and an inline
    `create_user_profile` handler whose merge lets the inputs win over the
    elicited content. */
module Legacy {
  import opened Wrappers
  import opened JsValue
  import opened Utils
  import opened Schemas
  import opened Storage
  import opened UserService
  import opened Elicitation
  import opened UserTools
  import Config

  /** `AVAILABLE_ROLES`. */
  const AVAILABLE_ROLES: Config.Choices := [
    ("developer", "Software Developer"),
    ("designer", "UI/UX Designer"),
    ("manager", "Project Manager"),
    ("analyst", "Business Analyst"),
    ("tester", "QA Tester")
  ]

  /** The `schemas` object inside `buildElicitationSchema`: the user fields
      with the five-role enum. */
  const LEGACY_SCHEMAS: Catalogue := UserCatalogue(AVAILABLE_ROLES)

  /** `buildElicitationSchema(missingFields)`: the same loop as the service
      builder, over the legacy catalogue. */
  method BuildElicitationSchema(missingFields: seq<string>) returns (s: SubSchema)
    ensures forall f :: f in s.properties <==> f in missingFields && Lookup(LEGACY_SCHEMAS, f).Some?
    ensures forall f :: f in s.properties ==> Lookup(LEGACY_SCHEMAS, f) == Some(s.properties[f])
    ensures s.required == KnownFields(LEGACY_SCHEMAS, missingFields)
    ensures s == SubSchemaFor(LEGACY_SCHEMAS, missingFields)
  {
    s := BuildSchema(LEGACY_SCHEMAS, missingFields);
  }

  /** The legacy role field offers five roles, keys and labels in parallel. */
  lemma LegacyRoleEnum()
    ensures Lookup(LEGACY_SCHEMAS, "role") == Some(EnumField("Role", "Your role in the organization", AVAILABLE_ROLES))
    ensures Config.Keys(AVAILABLE_ROLES) == ["developer", "designer", "manager", "analyst", "tester"]
    ensures Config.Labels(AVAILABLE_ROLES) ==
      ["Software Developer", "UI/UX Designer", "Project Manager", "Business Analyst", "QA Tester"]
  {
    assert LEGACY_SCHEMAS[3].key == "role";
    LookupPrefix(LEGACY_SCHEMAS, 3);
  }

  /** The legacy catalogue describes the same four fields as the service
      one, so every resolved field is asked for and required, in order. */
  lemma LegacySchemaAsksForMissing(inputs: Bag)
    ensures SubSchemaFor(LEGACY_SCHEMAS, MissingUserFields(inputs)).required == MissingUserFields(inputs)
    ensures SubSchemaFor(LEGACY_SCHEMAS, MissingUserFields(inputs)).properties.Keys == set f | f in MissingUserFields(inputs)
  {
    assert KeysOf(LEGACY_SCHEMAS) == USER_FIELDS;
    AllKnownAllRequired(LEGACY_SCHEMAS, MissingUserFields(inputs));
  }

  /** The four destructured fields of a profile. */
  datatype Profile = Profile(name: Value, email: Value, age: Value, role: Value)

  function InputProfile(inputs: Bag): Profile {
    Profile(Prop(inputs, "name"), Prop(inputs, "email"), Prop(inputs, "age"), Prop(inputs, "role"))
  }

  /** The input-wins merge: `x || content.x` for name, email and role; the
      input age unless it is undefined. */
  function LegacyMerge(p: Profile, content: Bag): (r: Profile)
    ensures Truthy(p.name) ==> r.name == p.name
    ensures Truthy(p.email) ==> r.email == p.email
    ensures Truthy(p.role) ==> r.role == p.role
    ensures p.age != Undefined ==> r.age == p.age
    ensures !Truthy(p.name) ==> r.name == Prop(content, "name")
    ensures !Truthy(p.email) ==> r.email == Prop(content, "email")
    ensures !Truthy(p.role) ==> r.role == Prop(content, "role")
    ensures p.age == Undefined ==> r.age == Prop(content, "age")
  {
    Profile(Or(p.name, Prop(content, "name")), Or(p.email, Prop(content, "email")),
      if p.age != Undefined then p.age else Prop(content, "age"), Or(p.role, Prop(content, "role")))
  }

  /** The legacy invalid-email text: the service's message behind "Error: ". */
  const LEGACY_INVALID_EMAIL := ERROR_PREFIX + INVALID_EMAIL

  /** Validate the email, then push the profile with the next identity. */
  function LegacyFinish(users: seq<User>, request: Option<ElicitRequest>, p: Profile, show: User -> string): (r: UserStep)
    ensures r.request == request
    ensures r.users == users || r.users == users + [User(GetNextId(UserIds(users)), p.name, p.email, p.age, p.role)]
    ensures r.users != users <==> !Truthy(p.email) || ValidateEmailValue(p.email)
  {
    if Truthy(p.email) && !ValidateEmailValue(p.email) then
      UserStep(request, TextResponse(LEGACY_INVALID_EMAIL), users)
    else
      var u := User(GetNextId(UserIds(users)), p.name, p.email, p.age, p.role);
      UserStep(request, TextResponse(USER_CREATED + show(u)), users + [u])
  }

  /** The legacy request for the missing fields. */
  function LegacyRequest(missing: seq<string>): ElicitRequest {
    var s := SubSchemaFor(LEGACY_SCHEMAS, missing);
    ElicitRequest(USER_PROMPT, RequestedSchema("object", s.properties, s.required))
  }

  /** The legacy handler as a transition over the user list. Decline and
      cancel answer with their bare messages, and a failed request with the
      handler's own prefix, none of them behind "Error: ". */
  function LegacyStep(users: seq<User>, inputs: Bag, reply: Reply, show: User -> string): (r: UserStep)
    ensures r.request.Some? <==> MissingUserFields(inputs) != []
    ensures r.request.Some? ==> r.request.value == LegacyRequest(MissingUserFields(inputs))
  {
    LegacyResume(users, inputs, MissingUserFields(inputs), reply, show)
  }

  /** The handler once the missing fields are known. */
  function LegacyResume(users: seq<User>, inputs: Bag, missing: seq<string>, reply: Reply, show: User -> string): (r: UserStep)
    ensures r.request.Some? <==> missing != []
    ensures r.request.Some? ==> r.request.value == LegacyRequest(missing)
  {
    if missing == [] then LegacyFinish(users, None, InputProfile(inputs), show)
    else
      var request := Some(LegacyRequest(missing));
      match Classify(reply)
      case Accept(content) => LegacyFinish(users, request, LegacyMerge(InputProfile(inputs), content), show)
      case Decline => UserStep(request, TextResponse(USER_DECLINED), users)
      case Cancel => UserStep(request, TextResponse(USER_CANCELLED), users)
      case Failure(message) => UserStep(request, TextResponse(USER_FAILED + message), users)
  }

  /** The profile a call validates and stores. */
  function SettledProfile(inputs: Bag, missing: seq<string>, reply: Reply): Profile {
    if missing != [] && Classify(reply).Accept? then LegacyMerge(InputProfile(inputs), Classify(reply).content)
    else InputProfile(inputs)
  }

  /** The profile every legacy server starts with. */
  const SEED_USER := User(1, Str("John Doe"), Str("john@example.com"), Num(30.0), Str("developer"))

  /** The module state of index.js: its user list. */
  class Server {
    var users: seq<User>

    /** Identities are strictly increasing in list order. */
    ghost predicate Valid()
      reads this
    {
      Increasing(UserIds(users))
    }

    constructor ()
      ensures users == [SEED_USER] && Valid()
    {
      users := [SEED_USER];
    }

    /** `getNextUserId()`: 1 for an empty list, otherwise one more than the
        largest identity, hence above every identity. */
    function GetNextUserId(): (r: int)
      reads this
      ensures users == [] ==> r == 1
      ensures forall id :: id in UserIds(users) ==> id < r
      ensures users != [] ==> r - 1 in UserIds(users)
    {
      GetNextId(UserIds(users))
    }

    /** The inline `create_user_profile` handler. */
    method CreateUserProfile(inputs: Bag, reply: Reply, show: User -> string)
      returns (request: Option<ElicitRequest>, response: Response)
      modifies this
      ensures LegacyStep(old(users), inputs, reply, show) == UserStep(request, response, users)
      ensures old(Valid()) ==> Valid()
    {
      var name, email, age, role := Prop(inputs, "name"), Prop(inputs, "email"), Prop(inputs, "age"), Prop(inputs, "role");
      // The same four checks as the service's `getMissingFields`.
      var missingFields := GetMissingFields(inputs);
      ghost var before := users;
      assert LegacyStep(before, inputs, reply, show) == LegacyResume(before, inputs, missingFields, reply, show);
      request := None;
      if |missingFields| > 0 {
        var s := BuildElicitationSchema(missingFields);
        request := Some(ElicitRequest(USER_PROMPT, RequestedSchema("object", s.properties, s.required)));
        assert request == Some(LegacyRequest(missingFields));
        if reply.Rejected? {
          assert Classify(reply) == Failure(reply.message);
          response := TextResponse(USER_FAILED + reply.message);
          return;
        } else if reply.action == "accept" && reply.content.Some? {
          var content := reply.content.value;
          assert Classify(reply) == Accept(content);
          name := Or(name, Prop(content, "name"));
          email := Or(email, Prop(content, "email"));
          age := if age != Undefined then age else Prop(content, "age");
          role := Or(role, Prop(content, "role"));
          assert Profile(name, email, age, role) == LegacyMerge(InputProfile(inputs), content);
          assert LegacyResume(before, inputs, missingFields, reply, show) == LegacyFinish(before, request, Profile(name, email, age, role), show);
        } else if reply.action == "decline" {
          assert Classify(reply) == Decline;
          response := TextResponse(USER_DECLINED);
          return;
        } else {
          assert Classify(reply) == Cancel;
          response := TextResponse(USER_CANCELLED);
          return;
        }
      } else {
        assert LegacyResume(before, inputs, missingFields, reply, show) == LegacyFinish(before, request, Profile(name, email, age, role), show);
      }
      ghost var p := Profile(name, email, age, role);
      if Truthy(email) && !ValidateEmailValue(email) {
        response := TextResponse(LEGACY_INVALID_EMAIL);
        assert LegacyFinish(before, request, p, show) == UserStep(request, response, before);
        return;
      }
      var newUser := User(GetNextUserId(), name, email, age, role);
      assert LegacyFinish(before, request, p, show) == UserStep(request, TextResponse(USER_CREATED + show(newUser)), before + [newUser]);
      if Valid() {
        AppendUserKeepsIncreasing(users, newUser);
      }
      users := users + [newUser];
      response := TextResponse(USER_CREATED + show(newUser));
    }

    /** The `list_users` handler of index.js. */
    method ListUsers(render: seq<User> -> string) returns (response: Response)
      ensures response == TextResponse(ListUsersText(users, render))
    {
      response := TextResponse("All user profiles (" + DecimalString(|users|) + " total):\n" + render(users));
    }
  }

  /** Finishing stores the profile, with the next identity, exactly when its
      email is absent or valid; otherwise it answers the invalid-email text. */
  lemma LegacyFinishStoresAtMostOne(users: seq<User>, request: Option<ElicitRequest>, p: Profile, show: User -> string)
    ensures var step := LegacyFinish(users, request, p, show);
      if Truthy(p.email) && !ValidateEmailValue(p.email) then
        step.users == users && step.response == CreateErrorResponse(INVALID_EMAIL)
      else step.users == users + [User(GetNextId(UserIds(users)), p.name, p.email, p.age, p.role)]
  {
  }

  /** With the missing fields known, a call stores the settled profile or
      nothing. */
  lemma LegacyResumeAtMostOne(users: seq<User>, inputs: Bag, missing: seq<string>, reply: Reply, show: User -> string)
    ensures var after := LegacyResume(users, inputs, missing, reply, show).users;
      var p := SettledProfile(inputs, missing, reply);
      after == users || after == users + [User(GetNextId(UserIds(users)), p.name, p.email, p.age, p.role)]
  {
    var p := SettledProfile(inputs, missing, reply);
    if missing == [] {
      LegacyFinishStoresAtMostOne(users, None, p, show);
    } else if Classify(reply).Accept? {
      LegacyFinishStoresAtMostOne(users, Some(LegacyRequest(missing)), p, show);
    }
  }

  /** A call stores at most one profile, the settled one with the next
      identity, and identities stay strictly increasing. */
  lemma LegacyAtMostOneAppended(users: seq<User>, inputs: Bag, reply: Reply, show: User -> string)
    ensures var after := LegacyStep(users, inputs, reply, show).users;
      var p := SettledProfile(inputs, MissingUserFields(inputs), reply);
      after == users || after == users + [User(GetNextId(UserIds(users)), p.name, p.email, p.age, p.role)]
    ensures Increasing(UserIds(users)) ==> Increasing(UserIds(LegacyStep(users, inputs, reply, show).users))
  {
    var p := SettledProfile(inputs, MissingUserFields(inputs), reply);
    var u := User(GetNextId(UserIds(users)), p.name, p.email, p.age, p.role);
    LegacyResumeAtMostOne(users, inputs, MissingUserFields(inputs), reply, show);
    if Increasing(UserIds(users)) {
      AppendUserKeepsIncreasing(users, u);
    }
  }

  /** A call either stores nothing or appends one profile carrying the
      next identity. */
  lemma LegacyAppendsNextId(users: seq<User>, inputs: Bag, reply: Reply, show: User -> string)
    ensures var after := LegacyStep(users, inputs, reply, show).users;
      after == users || (|after| == |users| + 1 && after[..|users|] == users && after[|users|].id == GetNextId(UserIds(users)))
  {
    LegacyAtMostOneAppended(users, inputs, reply, show);
  }

  /** The seeded list makes the first created profile's identity 2. */
  lemma FirstCreatedUserGetsIdTwo(inputs: Bag, reply: Reply, show: User -> string)
    ensures GetNextId(UserIds([SEED_USER])) == 2
    ensures var after := LegacyStep([SEED_USER], inputs, reply, show).users;
      after == [SEED_USER] || (|after| == 2 && after[0] == SEED_USER && after[1].id == 2)
  {
    assert UserIds([SEED_USER]) == [1];
    LegacyAppendsNextId([SEED_USER], inputs, reply, show);
  }

  /** The inputs win the merge: a stored profile keeps every truthy input
      field and a defined input age; elicited values fill only the gaps. */
  lemma InputsWinTheMerge(users: seq<User>, inputs: Bag, content: Bag, show: User -> string)
    requires MissingUserFields(inputs) != []
    ensures var after := LegacyStep(users, inputs, Reply("accept", Some(content)), show).users;
      after != users ==>
        && |after| == |users| + 1
        && (Truthy(Prop(inputs, "name")) ==> after[|users|].name == Prop(inputs, "name"))
        && (Truthy(Prop(inputs, "email")) ==> after[|users|].email == Prop(inputs, "email"))
        && (Truthy(Prop(inputs, "role")) ==> after[|users|].role == Prop(inputs, "role"))
        && (Prop(inputs, "age") != Undefined ==> after[|users|].age == Prop(inputs, "age"))
  {
    assert Classify(Reply("accept", Some(content))) == Accept(content);
    LegacyAtMostOneAppended(users, inputs, Reply("accept", Some(content)), show);
  }

  /** The two handlers merge in opposite directions: when the inputs give a
      name and the content gives one too, the legacy handler keeps the input
      name while `Object.assign` takes the elicited one. */
  lemma MergeDirectionsDiffer(inputs: Bag, content: Bag)
    requires Truthy(Prop(inputs, "name")) && "name" in content
    ensures LegacyMerge(InputProfile(inputs), content).name == Prop(inputs, "name")
    ensures Prop(Assign(inputs, content), "name") == content["name"]
  {
  }

  /** Declining, cancelling and a failed request leave the list unchanged,
      each answered with its own bare text. */
  lemma LegacyResumeAborts(users: seq<User>, inputs: Bag, missing: seq<string>, reply: Reply, show: User -> string)
    requires missing != [] && !Classify(reply).Accept?
    ensures LegacyResume(users, inputs, missing, reply, show).users == users
    ensures LegacyResume(users, inputs, missing, reply, show).response == TextResponse(LegacyAbortText(Classify(reply)))
  {
  }

  /** The bare text of each way a request can end without content. */
  function LegacyAbortText(d: Decision): string
    requires !d.Accept?
  {
    match d
    case Decline => USER_DECLINED
    case Cancel => USER_CANCELLED
    case Failure(message) => USER_FAILED + message
  }

  lemma LegacyAbortsStoreNothing(users: seq<User>, inputs: Bag, reply: Reply, show: User -> string)
    requires MissingUserFields(inputs) != [] && !Classify(reply).Accept?
    ensures LegacyStep(users, inputs, reply, show).users == users
    ensures LegacyStep(users, inputs, reply, show).response == TextResponse(LegacyAbortText(Classify(reply)))
  {
    LegacyResumeAborts(users, inputs, MissingUserFields(inputs), reply, show);
  }

  /** A settled profile with an invalid email is refused with the
      invalid-email text and nothing is stored. */
  lemma LegacyInvalidEmailStoresNothing(users: seq<User>, inputs: Bag, reply: Reply, show: User -> string)
    requires MissingUserFields(inputs) == [] || Classify(reply).Accept?
    requires var p := SettledProfile(inputs, MissingUserFields(inputs), reply);
      Truthy(p.email) && !ValidateEmailValue(p.email)
    ensures LegacyStep(users, inputs, reply, show).users == users
    ensures LegacyStep(users, inputs, reply, show).response == CreateErrorResponse(INVALID_EMAIL)
  {
    var missing := MissingUserFields(inputs);
    var p := SettledProfile(inputs, missing, reply);
    var request := if missing == [] then None else Some(LegacyRequest(missing));
    assert LegacyResume(users, inputs, missing, reply, show) == LegacyFinish(users, request, p, show);
    LegacyFinishStoresAtMostOne(users, request, p, show);
  }
}
