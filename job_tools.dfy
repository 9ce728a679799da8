/** tools/jobTools.js: the `create_job_details` handler and the `list_jobs`
    handler. Unlike the user handler, the request's `required` list is the
    missing required fields only, while its properties cover every described
    missing field. */
module JobTools {
  import opened Wrappers
  import opened JsValue
  import opened Seqs
  import opened Utils
  import opened Schemas
  import opened Storage
  import opened JobService
  import opened Elicitation

  const JOB_PROMPT := "Please provide job posting details"
  const JOB_DECLINED := "User declined to provide job information. No job posting was created."
  const JOB_CANCELLED := "User cancelled the job creation process."
  const JOB_FAILED := "Error creating job posting: "
  const JOB_CREATED := "Successfully created job posting:\n"

  /** What one call of the handler does: the request it sends, if any, the
      response it returns, and the job list it leaves behind. */
  datatype JobStep = JobStep(request: Option<ElicitRequest>, response: Response, jobs: seq<Job>)

  /** The request for the missing fields: properties for everything missing,
      `required` overridden by the missing required fields. */
  function JobRequest(missing: MissingJobFields): ElicitRequest {
    var s := SubSchemaFor(JOB_FIELD_SCHEMAS, missing.all);
    ElicitRequest(JOB_PROMPT, RequestedSchema("object", s.properties, missing.required))
  }

  /** The external collaborators of a call: the URI and date checks, the
      clock reading, and `JSON.stringify(newJob, null, 2)`. */
  datatype JobEnv = JobEnv(validUri: Value -> bool, validDate: Value -> bool, now: string, show: Job -> string)

  /** Validate, then create. */
  function FinishJob(jobs: seq<Job>, request: Option<ElicitRequest>, jobData: Bag, env: JobEnv): (r: JobStep)
    ensures r.request == request
    ensures r.jobs == jobs || r.jobs == jobs + [NewJob(GetNextId(JobIds(jobs)), jobData, env.now)]
    ensures r.jobs != jobs <==> JobCheck(jobData, env.validUri, env.validDate) == Pass
  {
    match JobCheck(jobData, env.validUri, env.validDate)
    case Fail(message) => JobStep(request, CreateErrorResponse(JOB_FAILED + message), jobs)
    case Pass =>
      var j := NewJob(GetNextId(JobIds(jobs)), jobData, env.now);
      JobStep(request, CreateSuccessResponse(JOB_CREATED + env.show(j)), jobs + [j])
  }

  /** The handler as a transition over the job list. */
  function CreateJobStep(jobs: seq<Job>, inputs: Bag, reply: Reply, env: JobEnv): (r: JobStep)
    ensures r.request.Some? <==> GetMissingFields(inputs).all != []
    ensures r.request.Some? ==> r.request.value == JobRequest(GetMissingFields(inputs))
  {
    ResumeJob(jobs, inputs, GetMissingFields(inputs), reply, env)
  }

  /** The handler once the missing fields are known. */
  function ResumeJob(jobs: seq<Job>, inputs: Bag, missing: MissingJobFields, reply: Reply, env: JobEnv): (r: JobStep)
    ensures r.request.Some? <==> missing.all != []
    ensures r.request.Some? ==> r.request.value == JobRequest(missing)
  {
    if missing.all == [] then FinishJob(jobs, None, inputs, env)
    else
      var request := Some(JobRequest(missing));
      match Classify(reply)
      case Accept(content) => FinishJob(jobs, request, Assign(inputs, content), env)
      case Decline => JobStep(request, CreateErrorResponse(JOB_DECLINED), jobs)
      case Cancel => JobStep(request, CreateErrorResponse(JOB_CANCELLED), jobs)
      case Failure(message) => JobStep(request, CreateErrorResponse(JOB_FAILED + message), jobs)
  }

  /** `createJobTool`'s handler, as the source runs it against the store. */
  method CreateJobTool(store: Store, inputs: Bag, reply: Reply, env: JobEnv)
    returns (request: Option<ElicitRequest>, response: Response)
    modifies store`jobs
    ensures CreateJobStep(old(store.jobs), inputs, reply, env) == JobStep(request, response, store.jobs)
    ensures old(store.Valid()) ==> store.Valid()
  {
    var jobData := inputs;
    var missingFields := GetMissingFields(jobData);
    ghost var before := store.jobs;
    assert CreateJobStep(before, inputs, reply, env) == ResumeJob(before, inputs, missingFields, reply, env);
    request := None;
    if |missingFields.all| > 0 {
      var s := BuildJobSchema(missingFields.all);
      request := Some(ElicitRequest(JOB_PROMPT, RequestedSchema("object", s.properties, missingFields.required)));
      assert request == Some(JobRequest(missingFields));
      if reply.Rejected? {
        response := CreateErrorResponse(JOB_FAILED + reply.message);
        return;
      } else if reply.action == "accept" && reply.content.Some? {
        jobData := Assign(jobData, reply.content.value);
      } else if reply.action == "decline" {
        response := CreateErrorResponse(JOB_DECLINED);
        return;
      } else {
        response := CreateErrorResponse(JOB_CANCELLED);
        return;
      }
    }
    assert ResumeJob(before, inputs, missingFields, reply, env) == FinishJob(before, request, jobData, env);
    var check := ValidateJob(jobData, env.validUri, env.validDate);
    if check.Fail? {
      response := CreateErrorResponse(JOB_FAILED + check.error);
      return;
    }
    var newJob := CreateJob(store, jobData, env.now);
    response := CreateSuccessResponse(JOB_CREATED + env.show(newJob));
  }

  /** The catalogue describes every field the resolver can report. */
  lemma MissingJobFieldsKnown(inputs: Bag)
    ensures forall f :: f in GetMissingFields(inputs).all ==> f in KeysOf(JOB_FIELD_SCHEMAS)
  {
    JobKeys();
  }

  /** The request describes every missing field, but requires only the
      missing required ones. */
  lemma JobRequestShape(missing: MissingJobFields, inputs: Bag)
    requires missing == GetMissingFields(inputs)
    ensures JobRequest(missing).message == JOB_PROMPT && JobRequest(missing).requestedSchema.kind == "object"
    ensures JobRequest(missing).requestedSchema.properties.Keys == set f | f in missing.all
    ensures JobRequest(missing).requestedSchema.required == missing.required
    ensures forall f :: f in missing.optional ==>
      f in JobRequest(missing).requestedSchema.properties && f !in JobRequest(missing).requestedSchema.required
  {
    MissingJobFieldsKnown(inputs);
    AllKnownAllRequired(JOB_FIELD_SCHEMAS, missing.all);
    MissingListsDisjoint(inputs);
  }

  /** Validate-then-create stores at most the one job built from its data,
      and stores it exactly when its response is not an error. */
  lemma FinishJobStoresAtMostOne(jobs: seq<Job>, request: Option<ElicitRequest>, jobData: Bag, env: JobEnv)
    ensures var step := FinishJob(jobs, request, jobData, env);
      && (step.jobs == jobs || step.jobs == jobs + [NewJob(GetNextId(JobIds(jobs)), jobData, env.now)])
      && (step.jobs != jobs <==> ErrorMessage(step.response) == None)
      && (step.jobs != jobs <==> JobCheck(jobData, env.validUri, env.validDate) == Pass)
  {
    match JobCheck(jobData, env.validUri, env.validDate)
    case Fail(message) =>
      ErrorResponseRoundTrip(JOB_FAILED + message);
    case Pass =>
      var j := NewJob(GetNextId(JobIds(jobs)), jobData, env.now);
      SuccessIsNotError(JOB_CREATED + env.show(j));
      assert |jobs + [j]| != |jobs|;
  }

  /** The data a call validates: the inputs, merged with accepted content
      when a request was sent. */
  function SettledData(inputs: Bag, missing: MissingJobFields, reply: Reply): Bag {
    if missing.all != [] && Classify(reply).Accept? then Assign(inputs, Classify(reply).content) else inputs
  }

  /** `AtMostOneJobAppended`, once the missing fields are known. */
  lemma ResumeStoresAtMostOne(jobs: seq<Job>, inputs: Bag, missing: MissingJobFields, reply: Reply, env: JobEnv)
    ensures var step := ResumeJob(jobs, inputs, missing, reply, env);
      var data := SettledData(inputs, missing, reply);
      && (step.jobs == jobs || step.jobs == jobs + [NewJob(GetNextId(JobIds(jobs)), data, env.now)])
      && (step.jobs != jobs <==> ErrorMessage(step.response) == None)
      && (step.jobs != jobs ==> JobCheck(data, env.validUri, env.validDate) == Pass)
  {
    if missing.all == [] {
      FinishJobStoresAtMostOne(jobs, None, inputs, env);
    } else {
      var request := Some(JobRequest(missing));
      match Classify(reply)
      case Accept(content) =>
        FinishJobStoresAtMostOne(jobs, request, Assign(inputs, content), env);
      case Decline =>
        ErrorResponseRoundTrip(JOB_DECLINED);
      case Cancel =>
        ErrorResponseRoundTrip(JOB_CANCELLED);
      case Failure(message) =>
        ErrorResponseRoundTrip(JOB_FAILED + message);
    }
  }

  /** A call leaves the list as it was or stores exactly one job, built from
      the settled data with the next identity; it stores one exactly when
      the response is not an error, and only when the settled data passes
      validation. */
  lemma AtMostOneJobAppended(jobs: seq<Job>, inputs: Bag, reply: Reply, env: JobEnv)
    ensures var after := CreateJobStep(jobs, inputs, reply, env).jobs;
      after == jobs || after == jobs + [NewJob(GetNextId(JobIds(jobs)), SettledData(inputs, GetMissingFields(inputs), reply), env.now)]
    ensures var step := CreateJobStep(jobs, inputs, reply, env);
      step.jobs != jobs <==> ErrorMessage(step.response) == None
    ensures var step := CreateJobStep(jobs, inputs, reply, env);
      step.jobs != jobs ==> JobCheck(SettledData(inputs, GetMissingFields(inputs), reply), env.validUri, env.validDate) == Pass
  {
    ResumeStoresAtMostOne(jobs, inputs, GetMissingFields(inputs), reply, env);
  }

  /** The error message a non-accepting reply leads to. */
  function JobAbortMessage(d: Decision): string
    requires !d.Accept?
  {
    match d
    case Decline => JOB_DECLINED
    case Cancel => JOB_CANCELLED
    case Failure(message) => JOB_FAILED + message
  }

  /** `JobAbortsStoreNothing`, once the missing fields are known. */
  lemma ResumeAbortsStoreNothing(jobs: seq<Job>, inputs: Bag, missing: MissingJobFields, reply: Reply, env: JobEnv)
    requires missing.all != [] && !Classify(reply).Accept?
    ensures ResumeJob(jobs, inputs, missing, reply, env).jobs == jobs
    ensures ResumeJob(jobs, inputs, missing, reply, env).response == CreateErrorResponse(JobAbortMessage(Classify(reply)))
  {
  }

  /** Declining, cancelling and a failed request leave the job list as it
      was: decline and cancel with their own messages, a failed request with
      its error message after the handler's prefix. */
  lemma JobAbortsStoreNothing(jobs: seq<Job>, inputs: Bag, reply: Reply, env: JobEnv)
    requires GetMissingFields(inputs).all != [] && !Classify(reply).Accept?
    ensures CreateJobStep(jobs, inputs, reply, env).jobs == jobs
    ensures CreateJobStep(jobs, inputs, reply, env).response == CreateErrorResponse(JobAbortMessage(Classify(reply)))
  {
    ResumeAbortsStoreNothing(jobs, inputs, GetMissingFields(inputs), reply, env);
  }

  /** `FailedJobValidationStoresNothing`, once the missing fields are
      known. */
  lemma ResumeFailedValidation(jobs: seq<Job>, inputs: Bag, missing: MissingJobFields, reply: Reply, env: JobEnv)
    requires JobCheck(SettledData(inputs, missing, reply), env.validUri, env.validDate).Fail?
    requires missing.all != [] ==> Classify(reply).Accept?
    ensures ResumeJob(jobs, inputs, missing, reply, env).jobs == jobs
    ensures ResumeJob(jobs, inputs, missing, reply, env).response ==
      CreateErrorResponse(JOB_FAILED + JobCheck(SettledData(inputs, missing, reply), env.validUri, env.validDate).error)
  {
  }

  /** A failed validation stores nothing and reports the joined messages
      after the handler's prefix. */
  lemma FailedJobValidationStoresNothing(jobs: seq<Job>, inputs: Bag, reply: Reply, env: JobEnv)
    requires JobCheck(SettledData(inputs, GetMissingFields(inputs), reply), env.validUri, env.validDate).Fail?
    requires GetMissingFields(inputs).all != [] ==> Classify(reply).Accept?
    ensures CreateJobStep(jobs, inputs, reply, env).jobs == jobs
    ensures CreateJobStep(jobs, inputs, reply, env).response ==
      CreateErrorResponse(JOB_FAILED + Join(JobViolations(SettledData(inputs, GetMissingFields(inputs), reply), env.validUri, env.validDate), " "))
  {
    ResumeFailedValidation(jobs, inputs, GetMissingFields(inputs), reply, env);
  }

  /** A title of 0 counts as given, so it is never asked for, yet the
      validator rejects it: with every other field present the call fails
      without a request. */
  lemma ZeroTitleIsNeverAskedForButRejected(jobs: seq<Job>, inputs: Bag, reply: Reply, env: JobEnv)
    requires Prop(inputs, "jobTitle") == Num(0.0)
    requires GetMissingFields(inputs).all == []
    ensures CreateJobStep(jobs, inputs, reply, env).request == None
    ensures CreateJobStep(jobs, inputs, reply, env).jobs == jobs
  {
    assert REQUIRED_MSG in JobViolations(inputs, env.validUri, env.validDate) by {
      assert REQUIRED_MSG in JOB_MESSAGES;
    }
  }

  /** Identities stay strictly increasing across a call. */
  lemma JobIdsStayIncreasing(jobs: seq<Job>, inputs: Bag, reply: Reply, env: JobEnv)
    requires Increasing(JobIds(jobs))
    ensures Increasing(JobIds(CreateJobStep(jobs, inputs, reply, env).jobs))
  {
    AtMostOneJobAppended(jobs, inputs, reply, env);
    var j := NewJob(GetNextId(JobIds(jobs)), SettledData(inputs, GetMissingFields(inputs), reply), env.now);
    AppendJobKeepsIncreasing(jobs, j);
  }

  /** The text of the `list_jobs` response; `render` stands for
      `JSON.stringify(jobs, null, 2)`. */
  function ListJobsText(jobs: seq<Job>, render: seq<Job> -> string): string {
    "All job postings (" + DecimalString(|jobs|) + " total):\n" + render(jobs)
  }

  /** `listJobsTool`'s handler: a success response over the current list. */
  method ListJobsTool(store: Store, render: seq<Job> -> string) returns (response: Response)
    ensures response == CreateSuccessResponse(ListJobsText(store.jobs, render))
  {
    response := CreateSuccessResponse("All job postings (" + DecimalString(|store.jobs|) + " total):\n" + render(store.jobs));
  }

  /** The count in the listing reads back as the number of stored jobs. */
  lemma ListedJobCountIsLength(jobs: seq<Job>, render: seq<Job> -> string)
    ensures var t := ListJobsText(jobs, render);
      var p := |"All job postings ("|;
      var d := DecimalString(|jobs|);
      && t[p..p + |d|] == d
      && ParseDecimal(t[p..p + |d|]) == |jobs|
  {
    var p := |"All job postings ("|;
    var d := DecimalString(|jobs|);
    var t := ListJobsText(jobs, render);
    assert t == "All job postings (" + d + (" total):\n" + render(jobs));
    assert t[p..p + |d|] == d;
    DecimalRoundTrip(|jobs|);
  }
}
