/** services/job.js: which job fields are missing (required and optional),
    the job validator with its accumulated messages, and the job factory. */
module JobService {
  import opened Wrappers
  import opened JsValue
  import opened Seqs
  import opened Utils
  import opened Storage

  // ---------------------------------------------------------------------------
  // `getMissingFields`
  // ---------------------------------------------------------------------------

  /** The required fields, in the order they are examined. */
  const REQUIRED_JOB_FIELDS: seq<string> := ["jobTitle", "description", "job_type", "salary", "experience_years"]

  /** An array literal's elements, every one present. */
  function Slots(xs: seq<string>): (r: seq<Option<string>>)
    ensures |r| == |xs| && forall i :: 0 <= i < |xs| ==> r[i] == Some(xs[i])
  {
    seq(|xs|, i requires 0 <= i < |xs| => Some(xs[i]))
  }

  /** The optional-field array literal as written: two names, a hole (two
      commas in a row), then five names. */
  const OPTIONAL_JOB_SLOTS: seq<Option<string>> :=
    Slots(["company_email", "company_website"]) + [None] +
    Slots(["is_remote", "is_active", "start_date", "application_deadline", "priority"])

  /** The seven optional field names, in order. */
  const OPTIONAL_JOB_FIELDS: seq<string> := [
    "company_email", "company_website", "is_remote", "is_active", "start_date", "application_deadline", "priority"]

  /** The names held by a sparse array, holes dropped. */
  function Present(slots: seq<Option<string>>): seq<string> {
    if slots == [] then []
    else (if slots[0].Some? then [slots[0].value] else []) + Present(slots[1..])
  }

  lemma {:induction false} PresentAppend(xs: seq<Option<string>>, ys: seq<Option<string>>)
    ensures Present(xs + ys) == Present(xs) + Present(ys)
  {
    if xs == [] {
      assert xs + ys == ys;
    } else {
      assert (xs + ys)[1..] == xs[1..] + ys;
      PresentAppend(xs[1..], ys);
    }
  }

  lemma {:induction false} PresentSlots(xs: seq<string>)
    ensures Present(Slots(xs)) == xs
  {
    if xs != [] {
      assert Slots(xs)[1..] == Slots(xs[1..]);
      PresentSlots(xs[1..]);
    }
  }

  /** `filter` over a sparse array: the callback never sees a hole. */
  function FilterSlots(slots: seq<Option<string>>, keep: string -> bool): seq<string> {
    if slots == [] then []
    else (if slots[0].Some? && keep(slots[0].value) then [slots[0].value] else []) + FilterSlots(slots[1..], keep)
  }

  /** Filtering a sparse array is filtering the list of its present
      elements. */
  lemma {:induction false} FilterSlotsSkipsHoles(slots: seq<Option<string>>, keep: string -> bool)
    ensures FilterSlots(slots, keep) == Filter(Present(slots), keep)
  {
    if slots != [] {
      FilterSlotsSkipsHoles(slots[1..], keep);
      var rest := Present(slots[1..]);
      if slots[0].Some? {
        var x := slots[0].value;
        assert Present(slots) == [x] + rest;
        assert ([x] + rest)[1..] == rest;
      } else {
        assert Present(slots) == [] + rest;
        assert [] + rest == rest;
      }
    }
  }

  /** The optional list's present elements are the seven optional fields:
      the hole contributes none. */
  lemma OptionalSlotsPresent()
    ensures Present(OPTIONAL_JOB_SLOTS) == OPTIONAL_JOB_FIELDS
  {
    var a, b := ["company_email", "company_website"], ["is_remote", "is_active", "start_date", "application_deadline", "priority"];
    PresentAppend(Slots(a) + [None], Slots(b));
    PresentAppend(Slots(a), [None]);
    PresentSlots(a);
    PresentSlots(b);
    assert Present([None]) == [];
    assert a + [] + b == OPTIONAL_JOB_FIELDS;
  }

  /** The required-field absence test: falsy, but the number 0 counts as
      given. */
  predicate RequiredMissing(v: Value) {
    !Truthy(v) && v != Num(0.0)
  }

  /** The optional-field absence test: undefined, null or the empty string. */
  predicate OptionalMissing(v: Value) {
    v == Undefined || v == Null || v == Str("")
  }

  function RequiredMissingIn(inputs: Bag): string -> bool {
    f => RequiredMissing(Prop(inputs, f))
  }

  function OptionalMissingIn(inputs: Bag): string -> bool {
    f => OptionalMissing(Prop(inputs, f))
  }

  /** The object `getMissingFields` returns. */
  datatype MissingJobFields = MissingJobFields(required: seq<string>, optional: seq<string>, all: seq<string>)

  /** `getMissingFields(inputs)`: the two filters and their concatenation. */
  function GetMissingFields(inputs: Bag): (r: MissingJobFields)
    ensures r.all == r.required + r.optional
    ensures forall f :: f in r.required <==> f in REQUIRED_JOB_FIELDS && RequiredMissing(Prop(inputs, f))
    ensures forall f :: f in r.optional <==> f in OPTIONAL_JOB_FIELDS && OptionalMissing(Prop(inputs, f))
  {
    var required := Filter(REQUIRED_JOB_FIELDS, RequiredMissingIn(inputs));
    var optional := FilterSlots(OPTIONAL_JOB_SLOTS, OptionalMissingIn(inputs));
    FilterSlotsSkipsHoles(OPTIONAL_JOB_SLOTS, OptionalMissingIn(inputs));
    OptionalSlotsPresent();
    MissingJobFields(required, optional, required + optional)
  }

  /** Both lists keep the order of their field lists; the hole contributes
      no field. */
  lemma MissingJobFieldsOrdered(inputs: Bag)
    ensures IsSubsequence(GetMissingFields(inputs).required, REQUIRED_JOB_FIELDS)
    ensures IsSubsequence(GetMissingFields(inputs).optional, OPTIONAL_JOB_FIELDS)
    ensures GetMissingFields(inputs).optional == Filter(OPTIONAL_JOB_FIELDS, OptionalMissingIn(inputs))
  {
    FilterIsSubsequence(REQUIRED_JOB_FIELDS, RequiredMissingIn(inputs));
    FilterSlotsSkipsHoles(OPTIONAL_JOB_SLOTS, OptionalMissingIn(inputs));
    OptionalSlotsPresent();
    FilterIsSubsequence(OPTIONAL_JOB_FIELDS, OptionalMissingIn(inputs));
  }

  /** No field is both required and optional. */
  lemma FieldListsDisjoint()
    ensures forall f :: f in OPTIONAL_JOB_FIELDS ==> f !in REQUIRED_JOB_FIELDS
  {
  }

  /** So no field is reported in both lists, and `all` holds each missing
      field once per list it is missing from. */
  lemma MissingListsDisjoint(inputs: Bag)
    ensures forall f :: f in GetMissingFields(inputs).optional ==> f !in GetMissingFields(inputs).required
  {
    FieldListsDisjoint();
  }

  /** For every required field (salary and experience among them) the
      number 0 counts as given, while the other falsy values count as
      missing. */
  lemma ZeroCountsAsGiven(inputs: Bag, f: string)
    requires f in REQUIRED_JOB_FIELDS
    ensures Prop(inputs, f) == Num(0.0) ==> f !in GetMissingFields(inputs).required
    ensures Prop(inputs, f) in {Undefined, Null, Str(""), Bool(false), NaN} ==> f in GetMissingFields(inputs).required
  {
  }

  /** For every optional field (the two flags among them) `false` and 0
      count as given; undefined, null and "" count as missing. */
  lemma FalseCountsAsGiven(inputs: Bag, f: string)
    requires f in OPTIONAL_JOB_FIELDS
    ensures Prop(inputs, f) in {Bool(false), Num(0.0)} ==> f !in GetMissingFields(inputs).optional
    ensures Prop(inputs, f) in {Undefined, Null, Str("")} ==> f in GetMissingFields(inputs).optional
  {
  }

  // ---------------------------------------------------------------------------
  // `validateJob`
  // ---------------------------------------------------------------------------

  const REQUIRED_MSG := "Missing required fields. JobTitle, description, and job_type are required."
  const EMAIL_MSG := "Invalid email format for company_email."
  const URI_MSG := "Invalid URI format for company_website."
  const DATE_MSG := "Invalid date format for start_date. Please use YYYY-MM-DD format."
  const DEADLINE_MSG := "Invalid date-time format for application_deadline."

  /** The rule table: every message, in the order the rules are checked. */
  const JOB_MESSAGES: seq<string> := [REQUIRED_MSG, EMAIL_MSG, URI_MSG, DATE_MSG, DEADLINE_MSG]

  /** Whether the rule reporting `message` fires on `job`. `validUri` and
      `validDate` stand for `utils.validateUri` and `utils.validateDate`. */
  predicate Fires(job: Bag, validUri: Value -> bool, validDate: Value -> bool, message: string) {
    if message == REQUIRED_MSG then
      !Truthy(Prop(job, "jobTitle")) || !Truthy(Prop(job, "description")) || !Truthy(Prop(job, "job_type"))
    else if message == EMAIL_MSG then
      Truthy(Prop(job, "company_email")) && !ValidateEmailValue(Prop(job, "company_email"))
    else if message == URI_MSG then
      Truthy(Prop(job, "company_website")) && !validUri(Prop(job, "company_website"))
    else if message == DATE_MSG then
      Truthy(Prop(job, "start_date")) && !validDate(Prop(job, "start_date"))
    else if message == DEADLINE_MSG then
      Truthy(Prop(job, "application_deadline")) && !validDate(Prop(job, "application_deadline"))
    else false
  }

  function FiresOn(job: Bag, validUri: Value -> bool, validDate: Value -> bool): string -> bool {
    m => Fires(job, validUri, validDate, m)
  }

  /** The messages of the rules that fire, in rule order. */
  function JobViolations(job: Bag, validUri: Value -> bool, validDate: Value -> bool): (r: seq<string>)
    ensures forall m :: m in r <==> m in JOB_MESSAGES && Fires(job, validUri, validDate, m)
  {
    Filter(JOB_MESSAGES, FiresOn(job, validUri, validDate))
  }

  /** The verdict: pass when no rule fires, otherwise one failure carrying
      the messages joined by a space. */
  function JobCheck(job: Bag, validUri: Value -> bool, validDate: Value -> bool): (r: Outcome)
    ensures r == Pass <==> forall m :: m in JOB_MESSAGES ==> !Fires(job, validUri, validDate, m)
    ensures r.Fail? ==> |r.error| > 0
  {
    var v := JobViolations(job, validUri, validDate);
    if v == [] then Pass else assert v[0] in v; Fail(Join(v, " "))
  }

  /** `validateJob(job)`: pushes one message per violated rule, then throws
      once if any was pushed. */
  method ValidateJob(job: Bag, validUri: Value -> bool, validDate: Value -> bool) returns (r: Outcome)
    ensures r == JobCheck(job, validUri, validDate)
  {
    var title, description, jobType := Prop(job, "jobTitle"), Prop(job, "description"), Prop(job, "job_type");
    var email, website := Prop(job, "company_email"), Prop(job, "company_website");
    var start, deadline := Prop(job, "start_date"), Prop(job, "application_deadline");
    ghost var keep := FiresOn(job, validUri, validDate);
    ghost var e1, e2, e3, e4, e5 := if keep(REQUIRED_MSG) then [REQUIRED_MSG] else [], if keep(EMAIL_MSG) then [EMAIL_MSG] else [],
      if keep(URI_MSG) then [URI_MSG] else [], if keep(DATE_MSG) then [DATE_MSG] else [],
      if keep(DEADLINE_MSG) then [DEADLINE_MSG] else [];
    var errors: seq<string> := [];
    if !Truthy(title) || !Truthy(description) || !Truthy(jobType) {
      errors := errors + [REQUIRED_MSG];
    }
    assert errors == e1;
    if Truthy(email) && !ValidateEmailValue(email) {
      errors := errors + [EMAIL_MSG];
    }
    assert errors == e1 + e2;
    if Truthy(website) && !validUri(website) {
      errors := errors + [URI_MSG];
    }
    assert errors == e1 + e2 + e3;
    if Truthy(start) && !validDate(start) {
      errors := errors + [DATE_MSG];
    }
    assert errors == e1 + e2 + e3 + e4;
    if Truthy(deadline) && !validDate(deadline) {
      errors := errors + [DEADLINE_MSG];
    }
    assert errors == e1 + e2 + e3 + e4 + e5;
    FilterFive(REQUIRED_MSG, EMAIL_MSG, URI_MSG, DATE_MSG, DEADLINE_MSG, keep);
    if |errors| > 0 {
      r := Fail(Join(errors, " "));
    } else {
      r := Pass;
    }
  }

  /** The validator passes exactly when the required fields are truthy and
      every truthy checked field is well formed. */
  lemma JobCheckPasses(job: Bag, validUri: Value -> bool, validDate: Value -> bool)
    ensures JobCheck(job, validUri, validDate) == Pass <==>
      Truthy(Prop(job, "jobTitle")) && Truthy(Prop(job, "description")) && Truthy(Prop(job, "job_type")) &&
      (Truthy(Prop(job, "company_email")) ==> ValidateEmailValue(Prop(job, "company_email"))) &&
      (Truthy(Prop(job, "company_website")) ==> validUri(Prop(job, "company_website"))) &&
      (Truthy(Prop(job, "start_date")) ==> validDate(Prop(job, "start_date"))) &&
      (Truthy(Prop(job, "application_deadline")) ==> validDate(Prop(job, "application_deadline")))
  {
    var v := JobViolations(job, validUri, validDate);
    assert REQUIRED_MSG in JOB_MESSAGES && EMAIL_MSG in JOB_MESSAGES && URI_MSG in JOB_MESSAGES;
    assert DATE_MSG in JOB_MESSAGES && DEADLINE_MSG in JOB_MESSAGES;
    if v != [] {
      assert v[0] in v;
    }
  }

  /** A failure reports each violated rule exactly once, in rule order. */
  lemma JobCheckMessages(job: Bag, validUri: Value -> bool, validDate: Value -> bool)
    ensures IsSubsequence(JobViolations(job, validUri, validDate), JOB_MESSAGES)
    ensures Distinct(JobViolations(job, validUri, validDate))
    ensures JobCheck(job, validUri, validDate).Fail? ==>
      JobCheck(job, validUri, validDate).error == Join(JobViolations(job, validUri, validDate), " ")
  {
    FilterIsSubsequence(JOB_MESSAGES, FiresOn(job, validUri, validDate));
    JobMessagesDistinct();
    FilterDistinct(JOB_MESSAGES, FiresOn(job, validUri, validDate));
  }

  /** No two rules share a message. */
  lemma JobMessagesDistinct()
    ensures Distinct(JOB_MESSAGES)
  {
  }

  /** When exactly one rule fires, the failure carries its message alone. */
  lemma OneRuleOneMessage(job: Bag, validUri: Value -> bool, validDate: Value -> bool, m: string)
    requires m in JOB_MESSAGES && Fires(job, validUri, validDate, m)
    requires forall m' :: m' in JOB_MESSAGES && m' != m ==> !Fires(job, validUri, validDate, m')
    ensures JobCheck(job, validUri, validDate) == Fail(m)
  {
    FilterFive(REQUIRED_MSG, EMAIL_MSG, URI_MSG, DATE_MSG, DEADLINE_MSG, FiresOn(job, validUri, validDate));
  }

  // ---------------------------------------------------------------------------
  // `createJob`
  // ---------------------------------------------------------------------------

  /** The record `createJob` builds. `now` stands for the clock reading
      `new Date().toISOString()`. */
  function NewJob(id: int, jobData: Bag, now: string): (j: Job)
    ensures j.id == id && j.created_at == now
    ensures j.title == Prop(jobData, "jobTitle")
    ensures j.is_remote != Undefined && j.is_active != Undefined
    ensures j.salary == Prop(jobData, "salary") && j.experience_years == Prop(jobData, "experience_years")
    ensures j.description == Prop(jobData, "description") && j.job_type == Prop(jobData, "job_type")
    ensures j.company_email == Prop(jobData, "company_email") && j.company_website == Prop(jobData, "company_website")
    ensures j.start_date == Prop(jobData, "start_date") && j.application_deadline == Prop(jobData, "application_deadline")
    ensures j.priority == Prop(jobData, "priority")
  {
    var remote, active := Prop(jobData, "is_remote"), Prop(jobData, "is_active");
    Job(id, Prop(jobData, "jobTitle"), Prop(jobData, "description"), Prop(jobData, "company_email"),
      Prop(jobData, "company_website"), Prop(jobData, "salary"), Prop(jobData, "experience_years"),
      if remote != Undefined then remote else Bool(false),
      if active != Undefined then active else Bool(true),
      Prop(jobData, "start_date"), Prop(jobData, "application_deadline"), Prop(jobData, "job_type"),
      Prop(jobData, "priority"), now)
  }

  /** Each flag takes its default exactly when it is `undefined` (an absent
      key included) and is copied otherwise, so null, false, 0 and "" are
      kept; `jobTitle` becomes `title`. */
  lemma NewJobDefaults(id: int, jobData: Bag, now: string)
    ensures Prop(jobData, "is_remote") == Undefined ==> NewJob(id, jobData, now).is_remote == Bool(false)
    ensures Prop(jobData, "is_remote") != Undefined ==> NewJob(id, jobData, now).is_remote == Prop(jobData, "is_remote")
    ensures Prop(jobData, "is_active") == Undefined ==> NewJob(id, jobData, now).is_active == Bool(true)
    ensures Prop(jobData, "is_active") != Undefined ==> NewJob(id, jobData, now).is_active == Prop(jobData, "is_active")
    ensures "is_remote" !in jobData ==> NewJob(id, jobData, now).is_remote == Bool(false)
    ensures "is_active" !in jobData ==> NewJob(id, jobData, now).is_active == Bool(true)
  {
  }

  /** `createJob(jobData)`: appends one record with the next identity. */
  method CreateJob(store: Store, jobData: Bag, now: string) returns (newJob: Job)
    modifies store`jobs
    ensures newJob == NewJob(GetNextId(JobIds(old(store.jobs))), jobData, now)
    ensures store.jobs == old(store.jobs) + [newJob]
    ensures old(store.Valid()) ==> store.Valid()
  {
    newJob := NewJob(GetNextId(JobIds(store.jobs)), jobData, now);
    if store.Valid() {
      AppendJobKeepsIncreasing(store.jobs, newJob);
    }
    store.jobs := store.jobs + [newJob];
  }
}
