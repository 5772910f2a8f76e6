/**
 * The public jobs endpoint: POST validates a submission's required keys in
 * a fixed order, creates the record with status PENDING whatever the body
 * says, reads it back and notifies the admin channel on a best-effort
 * basis; GET lists the approved records, newest first.
 */
module JobsRoute {
  import opened Wrappers
  import opened Types

  /**
   * A parsed POST body. Enum keys hold enum values when present; `status`
   * is whatever the client put there (the route overrides it).
   */
  datatype SubmissionBody = SubmissionBody(
    companyName: Option<string>,
    companyWebsite: Option<string>,
    companyContact: Option<string>,
    companyDescription: Option<string>,
    jobTitle: Option<string>,
    department: Option<Department>,
    locationType: Option<LocationType>,
    location: Option<string>,
    jobType: Option<JobType>,
    salaryRange: Option<string>,
    jobDescription: Option<string>,
    status: Option<string>)

  /** A present, non-empty string: JavaScript truthiness of a string key. */
  predicate FilledIn(v: Option<string>) {
    v.Some? && v.value != ""
  }

  /**
   * `body[field]` is truthy. A present enum value is truthy because every
   * literal of the enumerations is non-empty (`Types.NamesAreTruthy`).
   */
  predicate Truthy(body: SubmissionBody, f: Field) {
    match f
    case companyName => FilledIn(body.companyName)
    case companyWebsite => FilledIn(body.companyWebsite)
    case companyContact => FilledIn(body.companyContact)
    case companyDescription => FilledIn(body.companyDescription)
    case jobTitle => FilledIn(body.jobTitle)
    case department => body.department.Some?
    case locationType => body.locationType.Some?
    case location => FilledIn(body.location)
    case jobType => body.jobType.Some?
    case salaryRange => FilledIn(body.salaryRange)
    case jobDescription => FilledIn(body.jobDescription)
  }

  /** The first of `fields` whose value in `body` is falsy, if any. */
  function FirstMissingIn(body: SubmissionBody, fields: seq<Field>): (r: Option<Field>)
    ensures r.None? <==> forall i :: 0 <= i < |fields| ==> Truthy(body, fields[i])
    ensures r.Some? ==> exists k :: 0 <= k < |fields| && fields[k] == r.value && !Truthy(body, fields[k]) &&
                                   forall i :: 0 <= i < k ==> Truthy(body, fields[i])
  {
    if fields == [] then None
    else if !Truthy(body, fields[0]) then Some(fields[0])
    else
      FirstMissingIn(body, fields[1..])
  }

  /** The field named in the 400 response, if the body lacks a required key. */
  function FirstMissing(body: SubmissionBody): (r: Option<Field>)
    ensures r.Some? ==> IsRequiredKey(r.value) && !Truthy(body, r.value)
  {
    RequiredFieldsAreTheRequiredKeys();
    FirstMissingIn(body, RequiredFields)
  }

  /** Every required key is filled in (the reference reading of the check). */
  predicate Complete(body: SubmissionBody) {
    && FilledIn(body.companyName)
    && FilledIn(body.companyContact)
    && FilledIn(body.companyDescription)
    && FilledIn(body.jobTitle)
    && body.department.Some?
    && body.locationType.Some?
    && body.jobType.Some?
    && FilledIn(body.jobDescription)
  }

  /** The loop over the required keys lets a body through exactly when it is complete. */
  lemma NoneMissingIffComplete(body: SubmissionBody)
    ensures FirstMissing(body).None? <==> Complete(body)
  {
    if FirstMissing(body).None? {
      assert Truthy(body, RequiredFields[0]) && Truthy(body, RequiredFields[1]);
      assert Truthy(body, RequiredFields[2]) && Truthy(body, RequiredFields[3]);
      assert Truthy(body, RequiredFields[4]) && Truthy(body, RequiredFields[5]);
      assert Truthy(body, RequiredFields[6]) && Truthy(body, RequiredFields[7]);
    }
  }

  /**
   * The reported field is a required key, it is falsy, and every key
   * checked before it is truthy: the error names the first missing field.
   */
  lemma MissingFieldIsFirst(body: SubmissionBody)
    requires FirstMissing(body).Some?
    ensures IsRequiredKey(FirstMissing(body).value)
    ensures !Truthy(body, FirstMissing(body).value)
    ensures exists k :: 0 <= k < |RequiredFields| && RequiredFields[k] == FirstMissing(body).value &&
                        forall i :: 0 <= i < k ==> Truthy(body, RequiredFields[i])
  {
    RequiredFieldsAreTheRequiredKeys();
  }

  /** companyWebsite, location and salaryRange never influence the check. */
  lemma OptionalKeysNeverChecked(body: SubmissionBody, website: Option<string>, loc: Option<string>,
                                 salary: Option<string>, status: Option<string>)
    ensures FirstMissing(body) ==
            FirstMissing(body.(companyWebsite := website, location := loc, salaryRange := salary, status := status))
  {
    var other := body.(companyWebsite := website, location := loc, salaryRange := salary, status := status);
    SameRequiredKeysSameResult(body, other, RequiredFields);
  }

  lemma {:induction false} SameRequiredKeysSameResult(a: SubmissionBody, b: SubmissionBody, fields: seq<Field>)
    requires forall i :: 0 <= i < |fields| ==> Truthy(a, fields[i]) == Truthy(b, fields[i])
    ensures FirstMissingIn(a, fields) == FirstMissingIn(b, fields)
  {
    if fields != [] {
      SameRequiredKeysSameResult(a, b, fields[1..]);
    }
  }

  /** `{ ...body, status: 'PENDING' }`: the record the route asks the store to create. */
  function NewRecord(body: SubmissionBody, id: JobId, now: int): (r: Job)
    requires Complete(body)
    ensures r.status == Pending && r.id == id && r.createdAt == now && r.updatedAt == now
    ensures SubmittedPart(r) == body.(status := None)
  {
    Job(id, now, now, Pending,
        body.companyName.value, body.companyWebsite, body.companyContact.value,
        body.companyDescription.value, body.jobTitle.value, body.department.value,
        body.locationType.value, body.location, body.jobType.value, body.salaryRange,
        body.jobDescription.value)
  }

  /** The submission keys of a stored record, as a body without a status. */
  function SubmittedPart(job: Job): SubmissionBody {
    SubmissionBody(
      Some(job.companyName), job.companyWebsite, Some(job.companyContact),
      Some(job.companyDescription), Some(job.jobTitle), Some(job.department),
      Some(job.locationType), job.location, Some(job.jobType), job.salaryRange,
      Some(job.jobDescription), None)
  }

  /**
   * The created record is PENDING whatever status the body carried, and
   * every other submitted key is copied into it unchanged.
   */
  lemma NewRecordCopiesBody(body: SubmissionBody, id: JobId, now: int, claimed: Option<string>)
    requires Complete(body)
    ensures NewRecord(body, id, now).status == Pending
    ensures SubmittedPart(NewRecord(body, id, now)) == body.(status := None)
    ensures NewRecord(body.(status := claimed), id, now) == NewRecord(body, id, now)
    ensures var r := NewRecord(body, id, now); r.id == id && r.createdAt == now && r.updatedAt == now
  {
  }

  /** What can go wrong with the store during one POST. */
  datatype StoreFault =
    | NoFault
    | ConnectFails       // `prisma.$connect()` throws
    | CreateFails        // `prisma.job.create` throws
    | LostAfterCreate    // `create` returned, but `findUnique` does not find the record
    | ReadBackThrows     // `create` committed the record, then `findUnique` throws

  datatype PostResponse =
    | Created(job: Job)        // 201
    | BadRequest(missing: Field) // 400, "Missing required field: ..."
    | ServerError              // 500, "Failed to create job"

  function StatusCode(r: PostResponse): nat {
    match r
    case Created(_) => 201
    case BadRequest(_) => 400
    case ServerError => 500
  }

  /** The response of POST for a body, the id the store hands out, the clock and the store's behaviour. */
  function PostOutcome(body: SubmissionBody, id: JobId, now: int, fault: StoreFault): (r: PostResponse)
    ensures StatusCode(r) in {201, 400, 500}
    ensures r.Created? ==> r.job.status == Pending && r.job.id == id
  {
    if fault == ConnectFails then ServerError
    else match FirstMissing(body)
      case Some(f) => BadRequest(f)
      case None =>
        NoneMissingIffComplete(body);
        if fault == NoFault then Created(NewRecord(body, id, now)) else ServerError
  }

  /**
   * POST creates a record exactly when the store works and the body is
   * complete, and the record is then PENDING and carries the body's keys;
   * a validation failure names the first missing key; every store fault,
   * including a record that cannot be read back, is a 500.
   */
  lemma PostOutcomeCases(body: SubmissionBody, id: JobId, now: int, fault: StoreFault)
    ensures PostOutcome(body, id, now, fault).Created? <==> fault == NoFault && Complete(body)
    ensures PostOutcome(body, id, now, fault).Created? ==>
              var job := PostOutcome(body, id, now, fault).job;
              job.status == Pending && job.id == id && SubmittedPart(job) == body.(status := None)
    ensures PostOutcome(body, id, now, fault).BadRequest? <==> fault != ConnectFails && !Complete(body)
    ensures PostOutcome(body, id, now, fault).BadRequest? ==>
              FirstMissing(body) == Some(PostOutcome(body, id, now, fault).missing)
    ensures fault == LostAfterCreate && Complete(body) ==> StatusCode(PostOutcome(body, id, now, fault)) == 500
    ensures fault == ReadBackThrows && Complete(body) ==> StatusCode(PostOutcome(body, id, now, fault)) == 500
    ensures fault == ConnectFails ==> PostOutcome(body, id, now, fault) == ServerError
  {
    NoneMissingIffComplete(body);
    if fault != ConnectFails && Complete(body) {
      NewRecordCopiesBody(body, id, now, None);
    }
  }

  /** One attempt to post to the admin channel, and whether it got through. */
  datatype Notice = Notice(job: Job, delivered: bool)

  /** Records are newest first: `orderBy: { createdAt: 'desc' }`. */
  predicate NewestFirst(s: seq<Job>) {
    forall a, b :: 0 <= a < b < |s| ==> s[a].createdAt >= s[b].createdAt
  }

  predicate DistinctIds(s: seq<Job>) {
    forall a, b :: 0 <= a < b < |s| ==> s[a].id != s[b].id
  }

  /** Puts `j` into a list in front of the first record that is not newer than it. */
  function InsertNewestFirst(s: seq<Job>, j: Job): (r: seq<Job>)
    ensures multiset(r) == multiset(s) + multiset{j}
    ensures forall x :: x in r <==> x == j || x in s
  {
    if s == [] || j.createdAt >= s[0].createdAt then [j] + s
    else
      assert s == [s[0]] + s[1..];
      [s[0]] + InsertNewestFirst(s[1..], j)
  }

  /** Inserting into a newest-first list keeps it newest first. */
  lemma {:induction false} InsertKeepsNewestFirst(s: seq<Job>, j: Job)
    requires NewestFirst(s)
    ensures NewestFirst(InsertNewestFirst(s, j))
  {
    if s != [] && j.createdAt < s[0].createdAt {
      var rest := InsertNewestFirst(s[1..], j);
      InsertKeepsNewestFirst(s[1..], j);
      forall b | 0 <= b < |rest|
        ensures rest[b].createdAt <= s[0].createdAt
      {
        assert rest[b] in multiset(rest);
        if rest[b] != j {
          assert rest[b] in multiset(s[1..]);
          var i :| 0 <= i < |s[1..]| && s[1..][i] == rest[b];
          assert rest[b] == s[i + 1];
        }
      }
    }
  }

  /** Inserting a record whose id is new keeps the ids distinct. */
  lemma {:induction false} InsertKeepsDistinctIds(s: seq<Job>, j: Job)
    requires DistinctIds(s)
    requires forall x :: x in s ==> x.id != j.id
    ensures DistinctIds(InsertNewestFirst(s, j))
  {
    if s != [] && j.createdAt < s[0].createdAt {
      var rest := InsertNewestFirst(s[1..], j);
      InsertKeepsDistinctIds(s[1..], j);
      forall b | 0 <= b < |rest|
        ensures rest[b].id != s[0].id
      {
        assert rest[b] in multiset(rest);
        if rest[b] != j {
          assert rest[b] in multiset(s[1..]);
          var i :| 0 <= i < |s[1..]| && s[1..][i] == rest[b];
          assert rest[b] == s[i + 1];
        } else {
          assert s[0] in s;
        }
      }
    }
  }

  class JobsApi {
    /** The job table, by primary key. */
    var rows: map<JobId, Job>
    /** The key the store gives the next record it creates. */
    var nextId: JobId
    /** Every attempt to notify the admin channel, oldest first. */
    var adminNotices: seq<Notice>

    ghost predicate Valid()
      reads this
    {
      forall id :: id in rows ==> rows[id].id == id && id < nextId
    }

    /** A store holding `initial`, e.g. seeded rows or rows the admin routes have approved. */
    constructor (initial: map<JobId, Job>, next: JobId)
      requires forall id :: id in initial ==> initial[id].id == id && id < next
      ensures Valid()
      ensures rows == initial && nextId == next && adminNotices == []
    {
      rows := initial;
      nextId := next;
      adminNotices := [];
    }

    /** `prisma.job.findUnique({ where: { id } })`. */
    function FindUnique(id: JobId): (r: Option<Job>)
      reads this
      ensures r.Some? <==> id in rows
      ensures r.Some? ==> r.value == rows[id]
    {
      if id in rows then Some(rows[id]) else None
    }

    /** POST /api/jobs. `delivered` is the notifier's outcome, which the response ignores. */
    method Post(body: SubmissionBody, now: int, fault: StoreFault, delivered: bool) returns (resp: PostResponse)
      requires Valid()
      modifies this
      ensures Valid()
      ensures resp == PostOutcome(body, old(nextId), now, fault)
      ensures resp.Created? ==> resp.job.id !in old(rows)
      ensures resp.Created? ==> rows == old(rows)[resp.job.id := resp.job]
      ensures resp.Created? ==> adminNotices == old(adminNotices) + [Notice(resp.job, delivered)]
      ensures fault == ReadBackThrows && Complete(body) ==>
                resp == ServerError && adminNotices == old(adminNotices) &&
                rows == old(rows)[old(nextId) := NewRecord(body, old(nextId), now)]
      ensures !resp.Created? && !(fault == ReadBackThrows && Complete(body)) ==>
                rows == old(rows) && adminNotices == old(adminNotices)
      ensures nextId == if fault in {NoFault, LostAfterCreate, ReadBackThrows} && Complete(body)
                        then old(nextId) + 1 else old(nextId)
    {
      NoneMissingIffComplete(body);
      if fault == ConnectFails {
        return ServerError;
      }
      for i := 0 to |RequiredFields|
        invariant forall k :: 0 <= k < i ==> Truthy(body, RequiredFields[k])
      {
        if !Truthy(body, RequiredFields[i]) {
          return BadRequest(RequiredFields[i]);
        }
      }
      if fault == CreateFails {
        return ServerError;
      }
      var job := NewRecord(body, nextId, now);
      if fault != LostAfterCreate {
        rows := rows[job.id := job];
      }
      nextId := nextId + 1;
      if fault == ReadBackThrows {
        return ServerError;
      }
      var saved := FindUnique(job.id);
      if saved.None? {
        return ServerError;
      }
      adminNotices := adminNotices + [Notice(job, delivered)];
      return Created(job);
    }

    /** GET /api/jobs: `findMany({ where: { status: 'APPROVED' }, orderBy: { createdAt: 'desc' } })`. */
    method ListApproved() returns (jobs: seq<Job>)
      requires Valid()
      ensures NewestFirst(jobs) && DistinctIds(jobs)
      ensures forall j :: j in jobs ==> j.id in rows && rows[j.id] == j && j.status == Approved
      ensures forall id :: id in rows && rows[id].status == Approved ==> rows[id] in jobs
    {
      jobs := [];
      var remaining := rows.Keys;
      while remaining != {}
        invariant remaining <= rows.Keys
        invariant NewestFirst(jobs) && DistinctIds(jobs)
        invariant forall j :: j in jobs ==> j.id in rows && rows[j.id] == j && j.status == Approved && j.id !in remaining
        invariant forall id :: id in rows && id !in remaining && rows[id].status == Approved ==> rows[id] in jobs
        decreases remaining
      {
        var id :| id in remaining;
        if rows[id].status == Approved {
          InsertKeepsNewestFirst(jobs, rows[id]);
          InsertKeepsDistinctIds(jobs, rows[id]);
          jobs := InsertNewestFirst(jobs, rows[id]);
        }
        remaining := remaining - {id};
      }
    }
  }
}
