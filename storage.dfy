/** The record store: one ordered sequence of records per kind, shared by the
    tool handlers. storage.js is not part of this model; the store is the
    object with `users` and `jobs` arrays that the services push to, assumed
    to start with both arrays empty. */
module Storage {
  import opened JsValue
  import opened Utils

  /** A user record as `createUser` builds it. */
  datatype User = User(id: int, name: Value, email: Value, age: Value, role: Value)

  /** A job record as `createJob` builds it. */
  datatype Job = Job(
    id: int,
    title: Value,
    description: Value,
    company_email: Value,
    company_website: Value,
    salary: Value,
    experience_years: Value,
    is_remote: Value,
    is_active: Value,
    start_date: Value,
    application_deadline: Value,
    job_type: Value,
    priority: Value,
    created_at: string)

  /** `users.map(item => item.id)`. */
  function UserIds(users: seq<User>): (r: seq<int>)
    ensures |r| == |users| && forall i :: 0 <= i < |users| ==> r[i] == users[i].id
  {
    seq(|users|, i requires 0 <= i < |users| => users[i].id)
  }

  /** `jobs.map(item => item.id)`. */
  function JobIds(jobs: seq<Job>): (r: seq<int>)
    ensures |r| == |jobs| && forall i :: 0 <= i < |jobs| ==> r[i] == jobs[i].id
  {
    seq(|jobs|, i requires 0 <= i < |jobs| => jobs[i].id)
  }

  /** Appending the record with the next identity keeps identities strictly
      increasing, hence unique. */
  lemma AppendUserKeepsIncreasing(users: seq<User>, u: User)
    requires Increasing(UserIds(users)) && u.id == GetNextId(UserIds(users))
    ensures Increasing(UserIds(users + [u]))
  {
    NextIdKeepsIncreasing(UserIds(users));
    assert UserIds(users + [u]) == UserIds(users) + [u.id];
  }

  lemma AppendJobKeepsIncreasing(jobs: seq<Job>, j: Job)
    requires Increasing(JobIds(jobs)) && j.id == GetNextId(JobIds(jobs))
    ensures Increasing(JobIds(jobs + [j]))
  {
    NextIdKeepsIncreasing(JobIds(jobs));
    assert JobIds(jobs + [j]) == JobIds(jobs) + [j.id];
  }

  class Store {
    var users: seq<User>
    var jobs: seq<Job>

    /** Within each kind, identities are strictly increasing in store order. */
    ghost predicate Valid()
      reads this
    {
      Increasing(UserIds(users)) && Increasing(JobIds(jobs))
    }

    /** A store with no records of either kind. */
    constructor ()
      ensures Valid() && users == [] && jobs == []
    {
      users, jobs := [], [];
    }
  }
}
