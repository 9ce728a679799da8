# Elicitation-driven field completion, modelled in Dafny

This project models the field-completion pipeline of a small MCP server. The
server has two tools, `create_user_profile` and `create_job_details`. A call
whose inputs lack fields goes through these steps:

1. A resolver lists the absent fields. Each field has its own JavaScript absence test.
2. A sub-schema of those fields is built from a static field catalogue.
3. The client is asked for the fields. This step is called an elicitation.
4. The reply is classified as accept, decline or anything else. Accepted content is merged into the inputs.
5. The merged record is validated. If it passes, it gets the next identity and is appended to the record store.

The model also covers the older single-file server (`index.js`). It keeps its
own user list, which is seeded with one profile. It has a five-role catalogue
and merges so that the inputs win over the elicited content.

How the model is laid out:

- `js_value.dfy` covers JavaScript values and truthiness. It also has property lookup on a plain object, `||` and `Object.assign`.
- `config.dfy` holds the enumerations of `config.js`. `schemas.dfy` holds the two catalogues, `_buildSchema` (a `forEach` loop, written as a method with a loop) and the tool-parameter builders.
- `user_service.dfy` and `job_service.dfy` hold the resolvers, validators and factories. The factories append to the `Storage.Store` object, a class whose fields are the `users` and `jobs` sequences.
- `utils.dfy` holds `getNextId`, the email regular expression stated exactly over strings, and the response envelope.
- `elicitation.dfy` holds the client's reply and how the handlers branch on it.
- `user_tools.dfy`, `job_tools.dfy` and `legacy.dfy` hold the handlers. The two service handlers are module-level methods that take the store as a parameter. The legacy handler is a method of the `Legacy.Server` class, which owns its own user list. Each handler is proved equal to a pure transition function (`CreateUserStep`, `CreateJobStep`, `LegacyStep`). The lemmas state what a call does to the store: no append on decline, cancel, a failed request or a failed validation, and exactly one append, with the next identity, on success.

Behaviours of the code that the model keeps as written:

- For jobs, `salary` and `experience_years` of 0 count as given, because the required test is `!v && v !== 0`. `null`, `""`, `false` and `NaN` count as missing for them. The user `age` is different: it is missing only when it is `undefined`.
- The services use the three roles of `config.js`, while `index.js` offers five (`AVAILABLE_ROLES`).
- The legacy handler answers decline and cancel with bare text, without the "Error: " prefix the service handlers use. Its `catch` also answers without that prefix.
- A rejected elicitation call, such as a timeout, is not an outcome of its own. It leaves through the handler's `catch` as "Error creating user profile: …" (or "… job posting: …").

## Model

| member | source | states |
|---|---|---|
| JsValue.Truthy | services/user.js:13-16 | a value is falsy exactly when it is undefined, null, false, 0, NaN or "" |
| JsValue.Prop | services/job.js:17 | a property reads the stored value, and `undefined` when the key is absent |
| JsValue.Or | index.js:116-119 | JavaScript's or-operator yields the first operand when it is truthy and the second otherwise, so the result is truthy iff either operand is |
| JsValue.Assign | tools/userTools.js:25 | after `Object.assign` the keys are the union; a key of the source reads its value, every other key reads the target's |
| JsValue.DecimalString | tools/userTools.js:55 | the template literal `${n}` renders a count as a non-empty string of decimal digits |
| JsValue.DecimalRoundTrip | tools/userTools.js:55 | the rendered count reads back as the count |
| Utils.MaxOf | utils.js:2 | `Math.max` over a non-empty list is an element and bounds every element |
| Utils.GetNextId | utils.js:2 | 1 for an empty list; otherwise one more than an existing identity and above every identity |
| Utils.NextIdKeepsIncreasing | utils.js:2 | appending the next identity keeps identities strictly increasing; the new identity is fresh |
| Utils.IdsAfterIsRange | utils.js:2 | from an empty store, n successive appends receive 1, 2, …, n |
| Utils.ValidateEmail | utils.js:4 | the whole string matches `^[^\s@]+@[^\s@]+\.[^\s@]+$`; an accepted string has at least five characters and neither starts nor ends with '@' |
| Utils.ValidateEmailValue | index.js:30-33 | only a string can match the pattern, so an accepted value is a truthy string |
| Utils.EmailOfParts | utils.js:4 | every `a@b.c` whose parts are non-empty and hold no whitespace or '@' is accepted |
| Utils.EmailParts | utils.js:4 | every accepted string splits as `a@b.c` with such parts (the converse) |
| Utils.EmailRejects | utils.js:4 | an accepted string has exactly one '@' and no ECMAScript whitespace |
| Utils.TextResponse | index.js:121-170 | the inline envelope `{ content: [{ type: "text", text }] }` is one text block whose text is the given text |
| Utils.CreateSuccessResponse | utils.js:17-19 | the envelope is one text block whose text is the message |
| Utils.CreateErrorResponse | utils.js:21-23 | the envelope is one text block whose text is "Error: " followed by the error |
| Utils.ErrorResponseRoundTrip | utils.js:21-23 | the error is recovered from its envelope by stripping the prefix |
| Utils.SuccessIsNotError | utils.js:17-23 | a success envelope whose message does not start with 'E' carries no error |
| Storage.Store.constructor | services/user.js:5 | the shared store the services push to is assumed to start with no users and no jobs, and its identities are trivially increasing |
| Seqs.Join | services/job.js:54 | `join(" ")`: "" for no messages, the message itself for one; otherwise it starts with the first message followed by the separator, and its length is the messages' total plus one separator between each pair |
| Storage.AppendUserKeepsIncreasing | services/user.js:28-36 | appending a user with the next identity keeps user identities strictly increasing |
| Storage.AppendJobKeepsIncreasing | services/job.js:59-76 | appending a job with the next identity keeps job identities strictly increasing |
| UserService.MissingUserFields | services/user.js:9-19 | a field is listed iff it is one of the four and missing by its own test |
| UserService.GetMissingFields | services/user.js:9-19 | the four push-if steps produce exactly the filtered list |
| UserService.MissingUserFieldsPushes | services/user.js:13-16 | the result is the concatenation of the four conditional pushes, in order |
| UserService.MissingUserFieldsOrdered | services/user.js:13-18 | the result is a subsequence of name, email, age, role |
| UserService.MissingTests | services/user.js:13-16 | age is missing iff undefined (so 0 and null count as given); name, email and role iff falsy |
| UserService.CompleteInputsMissNothing | services/user.js:9-19 | with all four fields present by their tests, nothing is missing |
| UserService.NewUser | services/user.js:28-34 | the new record carries the given identity and the four fields copied verbatim |
| UserService.ValidateUser | services/user.js:21-25 | passes iff the email is falsy or a valid address; fails with the invalid-email message otherwise |
| UserService.CreateUser | services/user.js:27-38 | appends exactly one record at the end, with the next identity and the four fields copied verbatim; earlier records unchanged; identities stay increasing |
| JobService.FilterSlotsSkipsHoles | services/job.js:19-21 | `filter` over a sparse array equals filtering its present elements |
| JobService.OptionalSlotsPresent | services/job.js:11-14 | the optional array literal's hole contributes no field; its elements are the seven named fields |
| Seqs.Filter | services/job.js:16-21 | `Array.prototype.filter` keeps exactly the elements that pass the callback, and never lengthens the list |
| JobService.GetMissingFields | services/job.js:9-28 | `all` is required followed by optional; a field is missing-required iff falsy and not 0, missing-optional iff undefined, null or "" |
| JobService.MissingJobFieldsOrdered | services/job.js:10-21 | both lists are subsequences of their field lists; the optional one equals the filter over the seven names |
| JobService.FieldListsDisjoint | services/job.js:10-14 | no field is both required and optional |
| JobService.MissingListsDisjoint | services/job.js:16-26 | no field is reported in both lists |
| JobService.ZeroCountsAsGiven | services/job.js:16-18 | 0 is never missing-required (salary and experience_years included); undefined, null, "", false and NaN are |
| JobService.FalseCountsAsGiven | services/job.js:19-21 | false and 0 are never missing-optional (is_remote and is_active included); undefined, null and "" are |
| JobService.JobViolations | services/job.js:31-51 | a rule's message is listed iff the rule fires |
| JobService.JobCheck | services/job.js:53-55 | the verdict passes iff no rule fires; a failure carries a non-empty message |
| JobService.ValidateJob | services/job.js:30-56 | the five push-if checks and the final throw produce exactly the joined-violations verdict |
| JobService.JobCheckPasses | services/job.js:30-56 | passes iff title, description and job_type are truthy and every truthy checked field is well formed |
| JobService.JobCheckMessages | services/job.js:31-55 | violations appear once each, in rule order, and a failure carries them joined by " " |
| JobService.JobMessagesDistinct | services/job.js:34-50 | the five rule messages differ |
| JobService.OneRuleOneMessage | services/job.js:53-55 | when one rule fires alone, the failure is that message alone |
| JobService.NewJob | services/job.js:59-74 | the new record carries the given identity and the clock reading; `title` is `jobTitle`; the flags are never undefined; the other fields are copied |
| JobService.NewJobDefaults | services/job.js:67-68 | each flag takes its default (false for `is_remote`, true for `is_active`) exactly when it is `undefined`, an absent key included, and is copied otherwise, so null, false, 0 and "" are kept |
| JobService.CreateJob | services/job.js:58-78 | appends exactly one record at the end with the next identity; earlier records unchanged; identities stay increasing |
| Config.Keys | schemas.js:30 | `Object.keys` of a configuration map: its keys, in declaration order |
| Config.Labels | schemas.js:31 | `Object.values` of a configuration map: its labels, in declaration order, parallel to the keys |
| Schemas.KeysOf | schemas.js:141 | `Object.entries` visits the catalogue's keys in declaration order |
| Schemas.EnumField | schemas.js:26-32 | `enum` and `enumNames` are the keys and labels of one configuration map, parallel and of its length |
| Schemas.Lookup | schemas.js:130 | a key looks up a descriptor iff the catalogue declares it, and that descriptor is the declared one |
| Schemas.KnownFields | schemas.js:129-133 | the described missing fields, and only they, are kept |
| Schemas.PropertiesFor | schemas.js:129-131 | each described field maps to its catalogue descriptor, and no other key appears |
| Schemas.BuildSchema | schemas.js:125-137 | the loop yields properties for exactly the described missing fields, each the catalogue descriptor unchanged; unknown fields skipped; `required` is the described fields in the given order |
| Schemas.BuildUserSchema | schemas.js:117-119 | the builder over the user catalogue |
| Schemas.BuildJobSchema | schemas.js:121-123 | the builder over the job catalogue |
| Schemas.SubSchemaShape | schemas.js:125-137 | `required` and the property keys name the same fields, those both missing and declared |
| Schemas.RequiredInMissingOrder | schemas.js:129-133 | `required` is a subsequence of the missing fields |
| Schemas.AllKnownAllRequired | schemas.js:125-137 | when every missing field is declared, `required` is the missing list itself and the property keys are its elements |
| Schemas.RoleEnumFromConfig | schemas.js:26-32 | the role descriptor takes its enum from the three configured roles |
| Schemas.JobTypeEnumFromConfig | schemas.js:101-107 | the job-type descriptor takes its enum from the configured job types |
| Schemas.PriorityEnumFromConfig | schemas.js:108-114 | the priority descriptor takes its enum from the configured priorities |
| Schemas.ToolParamsOf | schemas.js:139-162 | the shared loop yields one parameter per catalogue key, with that entry's type and description |
| Schemas.UserKeys | schemas.js:4-33 | the user catalogue declares name, email, age, role in that order |
| Schemas.JobKeys | schemas.js:35-115 | the job catalogue declares its twelve keys in order |
| Schemas.CataloguesDistinct | schemas.js:4-115 | neither catalogue repeats a key |
| Schemas.GetUserToolParams | schemas.js:139-150 | exactly the user keys, each with the copied type and description and `optional: true` |
| Schemas.GetJobToolParams | schemas.js:152-162 | exactly the job keys, each with the copied type and description and no `optional` flag |
| Elicitation.Classify | tools/userTools.js:24-30 | accept iff the action is "accept" and content exists; decline iff the action is "decline"; a rejected call fails; everything else cancels |
| Elicitation.CancelIsTheFallback | tools/userTools.js:24-30 | cancellation is exactly "not decline, and not accept with content"; accept without content cancels |
| UserTools.FinishUser | tools/userTools.js:33-38 | validate-then-create keeps the request, and appends exactly the one user built with the next identity iff validation passes, otherwise nothing |
| UserTools.CreateUserStep | tools/userTools.js:12-41 | the transition sends a request iff the resolver reports a missing field, and the request sent is the one built for those fields |
| UserTools.CreateUserTool | tools/userTools.js:10-42 | the handler's request, response and new user list are those of the transition `CreateUserStep`; identities stay increasing |
| UserTools.MissingUserFieldsKnown | tools/userTools.js:13-16 | the user catalogue declares every field the resolver can report |
| UserTools.UserRequestAsksForMissing | tools/userTools.js:16-21 | the request is an object schema asking for exactly the missing fields, all of them required, in resolver order |
| UserTools.CompleteInputsSkipElicitation | tools/userTools.js:13-15 | with nothing missing, no request is sent and the inputs are validated and stored directly |
| UserTools.AcceptedContentWins | tools/userTools.js:24-25 | on accept, the stored user carries the elicited value where one was given and the input value elsewhere |
| UserTools.AbortsStoreNothing | tools/userTools.js:26-41 | decline, cancel and a rejected request leave the list unchanged, each with its own error text; so does a failed validation, of the inputs alone when nothing is missing or of the merged data after an accept |
| UserTools.InvalidElicitedEmailStoresNothing | tools/userTools.js:33-41 | an invalid elicited email stores nothing and reports the invalid-email message |
| UserTools.FinishUserStoresAtMostOne | tools/userTools.js:33-41 | validate-then-create appends the one built user or nothing, and appends exactly when the response is not an error |
| UserTools.AtMostOneUserAppended | tools/userTools.js:10-42 | a call appends nothing or exactly the user built from the settled data with the next identity, and appends exactly when the response is not an error |
| UserTools.UserIdsStayIncreasing | tools/userTools.js:33-34 | user identities stay strictly increasing across a call |
| UserTools.ListUsersTool | tools/userTools.js:51-56 | the listing is a success envelope over the current list |
| UserTools.ListedCountIsLength | tools/userTools.js:54-56 | the count in the listing text reads back as the number of stored users |
| JobTools.FinishJob | tools/jobTools.js:37-42 | validate-then-create keeps the request, and appends exactly the one job built with the next identity iff validation passes, otherwise nothing |
| JobTools.CreateJobStep | tools/jobTools.js:12-45 | the transition sends a request iff some required or optional field is missing, and the request sent is the one built for those fields |
| JobTools.CreateJobTool | tools/jobTools.js:10-46 | the handler's request, response and new job list are those of the transition `CreateJobStep`; identities stay increasing |
| JobTools.MissingJobFieldsKnown | tools/jobTools.js:13-16 | the job catalogue declares every field the resolver can report |
| JobTools.JobRequestShape | tools/jobTools.js:16-26 | the properties cover every missing field, but `required` is the missing required fields only; optional fields are asked for yet not required |
| JobTools.FinishJobStoresAtMostOne | tools/jobTools.js:37-45 | validate-then-create appends the one built job exactly when validation passes, and then the response is not an error |
| JobTools.AtMostOneJobAppended | tools/jobTools.js:10-46 | a call appends nothing or exactly the job built from the settled data with the next identity, only when that data validates, and exactly when the response is not an error |
| JobTools.JobAbortsStoreNothing | tools/jobTools.js:28-45 | decline, cancel and a rejected request leave the list unchanged, each with its own error text |
| JobTools.FailedJobValidationStoresNothing | tools/jobTools.js:37-45 | a failed validation appends nothing and reports the joined violations after the handler's prefix |
| JobTools.ZeroTitleIsNeverAskedForButRejected | tools/jobTools.js:13-15 | with every other field present, a title of 0 is never asked for, yet the validator rejects it and nothing is stored |
| JobTools.JobIdsStayIncreasing | tools/jobTools.js:37-38 | job identities stay strictly increasing across a call |
| JobTools.ListJobsTool | tools/jobTools.js:55-60 | the listing is a success envelope over the current list |
| JobTools.ListedJobCountIsLength | tools/jobTools.js:58-60 | the count in the listing text reads back as the number of stored jobs |
| Legacy.BuildElicitationSchema | index.js:35-78 | the same loop over the legacy catalogue: described fields in order, each with its descriptor |
| Legacy.LegacyRoleEnum | index.js:10-16 | the legacy role descriptor offers the five roles, with keys and labels in parallel |
| Legacy.LegacySchemaAsksForMissing | index.js:95-111 | every resolved field is asked for and required, in resolver order |
| Legacy.LegacyMerge | index.js:114-119 | input-wins merge: a truthy input name, email or role and a defined input age are kept; elicited values fill only the gaps |
| Legacy.Server.constructor | index.js:5-7 | the list starts as the one seeded profile, with identity 1 |
| Legacy.Server.GetNextUserId | index.js:26-28 | 1 for an empty list; otherwise one more than an existing identity and above every identity |
| Legacy.LegacyFinish | index.js:137-163 | the email check then the push: one profile with the next identity is appended iff the email is falsy or valid, otherwise nothing |
| Legacy.LegacyStep | index.js:92-170 | the transition sends a request iff a field is missing, and the request sent is the legacy schema for those fields |
| Legacy.Server.CreateUserProfile | index.js:90-172 | the handler's request, response and new list are those of the transition `LegacyStep`; identities stay increasing |
| Legacy.Server.ListUsers | index.js:180-187 | the listing text over the current list, without the success helper |
| Legacy.LegacyFinishStoresAtMostOne | index.js:137-163 | an invalid truthy email is answered with the invalid-email text and stores nothing; otherwise one profile with the next identity is pushed |
| Legacy.LegacyAtMostOneAppended | index.js:90-172 | a call pushes nothing or exactly the settled profile with the next identity, and identities stay increasing |
| Legacy.LegacyAppendsNextId | index.js:148-156 | a push adds one profile at the end, carrying the next identity, and leaves earlier ones unchanged |
| Legacy.FirstCreatedUserGetsIdTwo | index.js:5-7 | because of the seeded profile, the first created profile gets identity 2 |
| Legacy.InputsWinTheMerge | index.js:114-119 | on accept, a stored profile keeps every truthy input field and a defined input age |
| Legacy.MergeDirectionsDiffer | index.js:116 | for every truthy input name and every elicited name, the legacy merge keeps the input name while `Object.assign` takes the elicited one |
| Legacy.LegacyAbortsStoreNothing | index.js:120-134 | decline, cancel and a rejected request leave the list unchanged, each with its own bare text |
| Legacy.LegacyInvalidEmailStoresNothing | index.js:137-145 | a settled profile with an invalid email stores nothing and is answered with the invalid-email text |

## Left out

- elicitation.js is not part of this model. It runs the progress timer, sends notifications and sets the five-minute timeout. The client's reply is an input of each handler instead: a result with an `action` and optional `content`, or a rejection (a timeout, a transport error) that carries its message.
- MCP server construction, the stdio transport, `server.tool` registration and `main` are not modelled. They are transport wiring.
- `utils.validateUri` and `utils.validateDate` are foreign parsers (the WHATWG `URL` constructor and `Date`). They are parameters of the job validator.
- `new Date().toISOString()` reads the system clock. It is the parameter `now` of the job factory.
- `JSON.stringify` of a record or a list is the parameter `show` or `render`. `console.warn` and `console.error` logging is not modelled.
- storage.js is not part of this model. The store is the object the services push to: a class with `users` and `jobs` sequences.
- Field values are primitive JavaScript values only. Objects and arrays as field values are not modelled. Neither is a `toString` that throws. Numbers are mathematical reals: `Infinity` and double rounding are not modelled.
- A requested schema's `properties` and the declared tool parameters are JavaScript objects whose key order the client sees. They are Dafny maps here, so that order is not modelled. Only `required` keeps its order.
- Prototype-inherited keys (`toString`, `__proto__`) are not modelled in catalogue lookup or in merged objects. The resolvers never report such a field.
- The `catch` branches of the list handlers and the generic internal errors of the create handlers are not modelled. In the model, validation failures and rejected elicitation calls are the only exceptions.
- The legacy handler `Legacy.Server.CreateUserProfile` uses the service resolver `UserService.GetMissingFields` in place of the inline checks at index.js:95-99, which make the same four tests in the same order. Likewise, `validateEmail` at index.js:30-33 is the same regular expression as `Utils.ValidateEmail`.
- Utils.GetNextId: identities are unbounded integers. The model does not capture two limits of `Math.max(...ids) + 1` over JavaScript doubles. The spread passes one argument per record, so past the engine's argument limit it throws RangeError: the create handlers would then answer with an error and store nothing. Above 2^53, `+ 1` no longer increases the identity. The same holds for `getNextUserId` in index.js.
- On JavaScript values, `Utils.ValidateEmailValue` accepts only strings. This is exact for primitives: `RegExp.prototype.test` stringifies its argument, and the text of undefined, null, a boolean or a number holds no '@'.
