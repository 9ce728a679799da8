/** tools/userTools.js: the `create_user_profile` handler (resolve the
    missing fields, elicit them, classify the reply, merge, validate, create)
    and the `list_users` handler. */
module UserTools {
  import opened Wrappers
  import opened JsValue
  import opened Utils
  import opened Schemas
  import opened Storage
  import opened UserService
  import opened Elicitation

  const USER_PROMPT := "Please provide your user profile information"
  const USER_DECLINED := "User declined to provide profile information. No profile was created."
  const USER_CANCELLED := "User cancelled the profile creation process."
  const USER_FAILED := "Error creating user profile: "
  const USER_CREATED := "Successfully created user profile:\n"

  /** What one call of the handler does: the request it sends, if any, the
      response it returns, and the user list it leaves behind. */
  datatype UserStep = UserStep(request: Option<ElicitRequest>, response: Response, users: seq<User>)

  /** The request for the missing fields: the built sub-schema as an object
      schema. */
  function UserRequest(missing: seq<string>): ElicitRequest {
    var s := SubSchemaFor(USER_FIELD_SCHEMAS, missing);
    ElicitRequest(USER_PROMPT, RequestedSchema("object", s.properties, s.required))
  }

  /** Validate, then create: the tail of the handler once `userData` is
      settled. `show` stands for `JSON.stringify(newUser, null, 2)`. */
  function FinishUser(users: seq<User>, request: Option<ElicitRequest>, userData: Bag, show: User -> string): (r: UserStep)
    ensures r.request == request
    ensures r.users == users || r.users == users + [NewUser(GetNextId(UserIds(users)), userData)]
    ensures r.users != users <==> ValidateUser(userData) == Pass
  {
    match ValidateUser(userData)
    case Fail(message) => UserStep(request, CreateErrorResponse(USER_FAILED + message), users)
    case Pass =>
      var u := NewUser(GetNextId(UserIds(users)), userData);
      UserStep(request, CreateSuccessResponse(USER_CREATED + show(u)), users + [u])
  }

  /** The handler as a transition over the user list; `reply` is the
      client's answer, consulted only when a request is sent. */
  function CreateUserStep(users: seq<User>, inputs: Bag, reply: Reply, show: User -> string): (r: UserStep)
    ensures r.request.Some? <==> MissingUserFields(inputs) != []
    ensures r.request.Some? ==> r.request.value == UserRequest(MissingUserFields(inputs))
  {
    var missing := MissingUserFields(inputs);
    if missing == [] then FinishUser(users, None, inputs, show)
    else
      var request := Some(UserRequest(missing));
      match Classify(reply)
      case Accept(content) => FinishUser(users, request, Assign(inputs, content), show)
      case Decline => UserStep(request, CreateErrorResponse(USER_DECLINED), users)
      case Cancel => UserStep(request, CreateErrorResponse(USER_CANCELLED), users)
      case Failure(message) => UserStep(request, CreateErrorResponse(USER_FAILED + message), users)
  }

  /** `createUserTool`'s handler, as the source runs it against the store. */
  method CreateUserTool(store: Store, inputs: Bag, reply: Reply, show: User -> string)
    returns (request: Option<ElicitRequest>, response: Response)
    modifies store`users
    ensures CreateUserStep(old(store.users), inputs, reply, show) == UserStep(request, response, store.users)
    ensures old(store.Valid()) ==> store.Valid()
  {
    var userData := inputs;
    var missingFields := GetMissingFields(userData);
    request := None;
    if |missingFields| > 0 {
      var s := BuildUserSchema(missingFields);
      request := Some(ElicitRequest(USER_PROMPT, RequestedSchema("object", s.properties, s.required)));
      if reply.Rejected? {
        response := CreateErrorResponse(USER_FAILED + reply.message);
        return;
      } else if reply.action == "accept" && reply.content.Some? {
        userData := Assign(userData, reply.content.value);
      } else if reply.action == "decline" {
        response := CreateErrorResponse(USER_DECLINED);
        return;
      } else {
        response := CreateErrorResponse(USER_CANCELLED);
        return;
      }
    }
    var check := ValidateUser(userData);
    if check.Fail? {
      response := CreateErrorResponse(USER_FAILED + check.error);
      return;
    }
    var newUser := CreateUser(store, userData);
    response := CreateSuccessResponse(USER_CREATED + show(newUser));
  }

  /** The catalogue describes every field the resolver can report. */
  lemma MissingUserFieldsKnown(inputs: Bag)
    ensures forall f :: f in MissingUserFields(inputs) ==> f in KeysOf(USER_FIELD_SCHEMAS)
  {
    UserKeys();
  }

  /** The request asks for every missing field, all of them required, in
      the resolver's order. */
  lemma UserRequestAsksForMissing(missing: seq<string>, inputs: Bag)
    requires missing == MissingUserFields(inputs)
    ensures UserRequest(missing).message == USER_PROMPT && UserRequest(missing).requestedSchema.kind == "object"
    ensures UserRequest(missing).requestedSchema.required == missing
    ensures UserRequest(missing).requestedSchema.properties.Keys == set f | f in missing
  {
    MissingUserFieldsKnown(inputs);
    AllKnownAllRequired(USER_FIELD_SCHEMAS, missing);
  }

  /** With nothing missing, no request is sent and the inputs themselves are
      validated and stored. */
  lemma CompleteInputsSkipElicitation(users: seq<User>, inputs: Bag, reply: Reply, show: User -> string)
    requires MissingUserFields(inputs) == []
    ensures CreateUserStep(users, inputs, reply, show) == FinishUser(users, None, inputs, show)
    ensures ValidateUser(inputs) == Pass ==>
      CreateUserStep(users, inputs, reply, show).users == users + [NewUser(GetNextId(UserIds(users)), inputs)]
  {
  }

  /** Accepted content overrides the inputs field by field: the stored user
      carries the elicited value where one was given, the input elsewhere. */
  lemma AcceptedContentWins(users: seq<User>, inputs: Bag, content: Bag, show: User -> string)
    requires MissingUserFields(inputs) != []
    requires ValidateUser(Assign(inputs, content)) == Pass
    ensures var after := CreateUserStep(users, inputs, Reply("accept", Some(content)), show).users;
      && |after| == |users| + 1
      && after[|users|].name == (if "name" in content then content["name"] else Prop(inputs, "name"))
      && after[|users|].email == (if "email" in content then content["email"] else Prop(inputs, "email"))
      && after[|users|].age == (if "age" in content then content["age"] else Prop(inputs, "age"))
      && after[|users|].role == (if "role" in content then content["role"] else Prop(inputs, "role"))
  {
    var userData := Assign(inputs, content);
    assert Classify(Reply("accept", Some(content))) == Accept(content);
    assert CreateUserStep(users, inputs, Reply("accept", Some(content)), show).users ==
      users + [NewUser(GetNextId(UserIds(users)), userData)];
  }

  /** Declining, cancelling, a failed request and a failed validation (of
      the inputs alone or of the merged data) leave the user list as it was,
      each with its own error message. */
  lemma AbortsStoreNothing(users: seq<User>, inputs: Bag, reply: Reply, show: User -> string)
    ensures var step := CreateUserStep(users, inputs, reply, show);
      MissingUserFields(inputs) != [] && Classify(reply) == Decline ==>
        step.users == users && step.response == CreateErrorResponse(USER_DECLINED)
    ensures var step := CreateUserStep(users, inputs, reply, show);
      MissingUserFields(inputs) != [] && Classify(reply) == Cancel ==>
        step.users == users && step.response == CreateErrorResponse(USER_CANCELLED)
    ensures var step := CreateUserStep(users, inputs, reply, show);
      MissingUserFields(inputs) != [] && reply.Rejected? ==>
        step.users == users && step.response == CreateErrorResponse(USER_FAILED + reply.message)
    ensures var step := CreateUserStep(users, inputs, reply, show);
      (MissingUserFields(inputs) == [] || Classify(reply).Accept?) && ValidateUser(SettledUserData(inputs, reply)).Fail? ==>
        step.users == users && step.response == CreateErrorResponse(USER_FAILED + INVALID_EMAIL)
  {
  }

  /** An invalid elicited email is caught by the validator: nothing is stored
      and the response names the email rule. */
  lemma InvalidElicitedEmailStoresNothing(users: seq<User>, inputs: Bag, content: Bag, show: User -> string)
    requires MissingUserFields(inputs) != []
    requires "email" in content && Truthy(content["email"]) && !ValidateEmailValue(content["email"])
    ensures CreateUserStep(users, inputs, Reply("accept", Some(content)), show).users == users
    ensures ErrorMessage(CreateUserStep(users, inputs, Reply("accept", Some(content)), show).response) ==
      Some(USER_FAILED + INVALID_EMAIL)
  {
    ErrorResponseRoundTrip(USER_FAILED + INVALID_EMAIL);
  }

  /** The data a call validates: the inputs, merged with accepted content
      when a request was sent. */
  function SettledUserData(inputs: Bag, reply: Reply): Bag {
    if MissingUserFields(inputs) != [] && Classify(reply).Accept? then Assign(inputs, Classify(reply).content) else inputs
  }

  /** Validate-then-create stores at most the one user built from its data,
      and stores it exactly when its response is not an error. */
  lemma FinishUserStoresAtMostOne(users: seq<User>, request: Option<ElicitRequest>, userData: Bag, show: User -> string)
    ensures var step := FinishUser(users, request, userData, show);
      && (step.users == users || step.users == users + [NewUser(GetNextId(UserIds(users)), userData)])
      && (step.users != users <==> ErrorMessage(step.response) == None)
  {
    match ValidateUser(userData)
    case Fail(message) =>
      ErrorResponseRoundTrip(USER_FAILED + message);
    case Pass =>
      var u := NewUser(GetNextId(UserIds(users)), userData);
      SuccessIsNotError(USER_CREATED + show(u));
      assert |users + [u]| != |users|;
  }

  /** A call leaves the list as it was or stores exactly one user, built
      from the settled data with the next identity; it stores one exactly
      when its response is not an error. */
  lemma AtMostOneUserAppended(users: seq<User>, inputs: Bag, reply: Reply, show: User -> string)
    ensures var after := CreateUserStep(users, inputs, reply, show).users;
      after == users || after == users + [NewUser(GetNextId(UserIds(users)), SettledUserData(inputs, reply))]
    ensures var step := CreateUserStep(users, inputs, reply, show);
      step.users != users <==> ErrorMessage(step.response) == None
  {
    var missing := MissingUserFields(inputs);
    if missing == [] {
      FinishUserStoresAtMostOne(users, None, inputs, show);
    } else {
      var request := Some(UserRequest(missing));
      match Classify(reply)
      case Accept(content) =>
        FinishUserStoresAtMostOne(users, request, Assign(inputs, content), show);
      case Decline =>
        ErrorResponseRoundTrip(USER_DECLINED);
      case Cancel =>
        ErrorResponseRoundTrip(USER_CANCELLED);
      case Failure(message) =>
        ErrorResponseRoundTrip(USER_FAILED + message);
    }
  }

  /** Identities stay strictly increasing across a call. */
  lemma UserIdsStayIncreasing(users: seq<User>, inputs: Bag, reply: Reply, show: User -> string)
    requires Increasing(UserIds(users))
    ensures Increasing(UserIds(CreateUserStep(users, inputs, reply, show).users))
  {
    AtMostOneUserAppended(users, inputs, reply, show);
    var u := NewUser(GetNextId(UserIds(users)), SettledUserData(inputs, reply));
    AppendUserKeepsIncreasing(users, u);
  }

  /** The text of the `list_users` response; `render` stands for
      `JSON.stringify(users, null, 2)`. */
  function ListUsersText(users: seq<User>, render: seq<User> -> string): string {
    "All user profiles (" + DecimalString(|users|) + " total):\n" + render(users)
  }

  /** `listUsersTool`'s handler: a success response over the current list. */
  method ListUsersTool(store: Store, render: seq<User> -> string) returns (response: Response)
    ensures response == CreateSuccessResponse(ListUsersText(store.users, render))
  {
    response := CreateSuccessResponse("All user profiles (" + DecimalString(|store.users|) + " total):\n" + render(store.users));
  }

  /** The count in the listing reads back as the number of stored users. */
  lemma ListedCountIsLength(users: seq<User>, render: seq<User> -> string)
    ensures var t := ListUsersText(users, render);
      var p := |"All user profiles ("|;
      var d := DecimalString(|users|);
      && t[p..p + |d|] == d
      && ParseDecimal(t[p..p + |d|]) == |users|
  {
    var p := |"All user profiles ("|;
    var d := DecimalString(|users|);
    var t := ListUsersText(users, render);
    assert t == "All user profiles (" + d + (" total):\n" + render(users));
    assert t[p..p + |d|] == d;
    DecimalRoundTrip(|users|);
  }
}
