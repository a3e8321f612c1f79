/**
 * The job routes over an in-memory store: the tables the handlers touch
 * (jobs, escrows keyed by job, users keyed by handle, submissions, and the
 * append-only audit log) are fields of `Store`, and each route handler is a
 * method that validates its input, looks up what it needs and writes.
 */
module Jobs {
  import opened Wrappers
  import JsString
  import Scoring

  /** Record identifiers; fresh ones come from a counter. */
  type Id = nat

  const SystemRequesterHandle: string := "system-requester"

  /** The formula label returned by the scoring route. */
  const ScoreFormula: string := "quality*0.7 + speed*0.3"

  datatype JobStatus = Open | Completed
  datatype EscrowStatus = Locked | Released
  datatype SubmissionStatus = Pending | Scored | Winner

  datatype Job = Job(
    title: string,
    prompt: string,
    rewardTokens: nat,
    deadlineAt: int,
    status: JobStatus,
    requesterId: Id)

  datatype Escrow = Escrow(amountTokens: nat, status: EscrowStatus)

  datatype Submission = Submission(
    jobId: Id,
    workerId: Id,
    content: string,
    latencyMs: nat,
    qualityScore: Option<real>,
    speedScore: Option<real>,
    finalScore: Option<real>,
    status: SubmissionStatus)

  /** The action tag of an audit record together with its metadata. */
  datatype AuditEvent =
    | JobCreated(rewardTokens: nat)
    | SubmissionCreated(submissionId: Id, latencyMs: nat)
    | SubmissionScored(submissionId: Id, quality: real, speed: real, score: real)
  {
    function Action(): string {
      match this
      case JobCreated(_) => "JOB_CREATED"
      case SubmissionCreated(_, _) => "SUBMISSION_CREATED"
      case SubmissionScored(_, _, _, _) => "SUBMISSION_SCORED"
    }
  }

  datatype AuditEntry = AuditEntry(jobId: Id, actorId: Option<Id>, event: AuditEvent)

  /** The error bodies the routes send: 400 ValidationError, 404 for the other two. */
  datatype ApiError = ValidationError | JobNotFound | SubmissionNotFound

  datatype CreatedJob = CreatedJob(id: Id, job: Job, escrow: Escrow)
  datatype JobDetails = JobDetails(job: Job, submissions: map<Id, Submission>, escrow: Escrow)
  datatype CreatedSubmission = CreatedSubmission(id: Id, submission: Submission)
  datatype ScoreReply = ScoreReply(submission: Submission, score: real, quality: real, speed: real, formula: string)

  /** A JSON number that passes zod's `.int()`. */
  predicate IsInteger(x: real) {
    x.Floor as real == x
  }

  /** A string whose `.length` lies in `[lo, hi]`, as zod's `.min(lo).max(hi)` checks. */
  predicate LengthBetween(s: string, lo: nat, hi: nat) {
    lo <= JsString.Utf16Length(s) <= hi
  }

  /**
   * The body schema of `POST /jobs`. `deadlineAt` is the coerced date, `None`
   * when the input does not coerce to a valid date.
   */
  predicate ValidCreateJob(title: string, prompt: string, rewardTokens: real, deadlineAt: Option<int>) {
    && LengthBetween(title, 3, 200)
    && LengthBetween(prompt, 1, 10000)
    && IsInteger(rewardTokens) && rewardTokens > 0.0
    && deadlineAt.Some?
  }

  /** The body schema of `POST /jobs/:id/submissions`. */
  predicate ValidCreateSubmission(workerHandle: string, content: string, latencyMs: real) {
    && LengthBetween(workerHandle, 1, 64)
    && LengthBetween(content, 1, 20000)
    && IsInteger(latencyMs) && latencyMs >= 0.0
  }

  /** The body schema of `POST /jobs/:id/score`: an explicit quality in [0, 1]. */
  predicate ValidScore(quality: real) {
    0.0 <= quality <= 1.0
  }

  /** The route's own copy of the speed function; it agrees with the library's everywhere. */
  function RouteCalculateSpeed(latencyMs: real): (r: real)
    ensures r == Scoring.CalculateSpeed(latencyMs)
  {
    var normalized := 1.0 - latencyMs / 10000.0;
    Scoring.Max(0.0, Scoring.Min(1.0, normalized))
  }

  /** The formula written inline in the scoring route; it is the library's final score. */
  function RouteScore(quality: real, speed: real): (r: real)
    ensures r == Scoring.ComputeFinalScore(quality, speed)
  {
    quality * 0.7 + speed * 0.3
  }

  /** The speed and final score the route computes from a stored latency lie in [0, 1]. */
  lemma RouteScoreBounds(quality: real, latencyMs: nat)
    requires ValidScore(quality)
    ensures 0.0 <= RouteCalculateSpeed(latencyMs as real) <= 1.0
    ensures 0.0 <= RouteScore(quality, RouteCalculateSpeed(latencyMs as real)) <= 1.0
  {
    Scoring.FinalScoreBounds(quality, Scoring.CalculateSpeed(latencyMs as real));
  }

  /** The scores a submission carries agree with its status and with the scoring formula. */
  predicate ScoresConsistent(s: Submission) {
    match s.status
    case Pending => s.qualityScore == None && s.speedScore == None && s.finalScore == None
    case Scored =>
      && s.qualityScore.Some? && s.speedScore.Some? && s.finalScore.Some?
      && ValidScore(s.qualityScore.value)
      && s.speedScore.value == Scoring.CalculateSpeed(s.latencyMs as real)
      && s.finalScore.value == Scoring.ComputeFinalScore(s.qualityScore.value, s.speedScore.value)
    case Winner => false
  }

  /** A scored submission's three scores all lie in [0, 1]. */
  lemma ScoredSubmissionInRange(s: Submission)
    requires ScoresConsistent(s) && s.status == Scored
    ensures 0.0 <= s.qualityScore.value <= 1.0
    ensures 0.0 <= s.speedScore.value <= 1.0
    ensures 0.0 <= s.finalScore.value <= 1.0
  {
    Scoring.FinalScoreBounds(s.qualityScore.value, s.speedScore.value);
  }

  /** No two handles share a user id. */
  ghost predicate UsersValid(users: map<string, Id>) {
    forall h1, h2 :: h1 in users && h2 in users && h1 != h2 ==> users[h1] != users[h2]
  }

  /** Every job is OPEN, has a positive reward, a known requester and one LOCKED escrow holding the reward. */
  ghost predicate JobsValid(jobs: map<Id, Job>, escrows: map<Id, Escrow>, userIds: set<Id>) {
    && (forall j :: j in escrows ==> j in jobs)
    && forall j :: j in jobs ==>
         && jobs[j].status == Open
         && jobs[j].rewardTokens > 0
         && jobs[j].requesterId in userIds
         && j in escrows && escrows[j] == Escrow(jobs[j].rewardTokens, Locked)
  }

  /** Every submission belongs to a known job and worker, and its scores match its status. */
  ghost predicate SubmissionsValid(submissions: map<Id, Submission>, jobIds: set<Id>, userIds: set<Id>) {
    forall s :: s in submissions ==>
      && submissions[s].jobId in jobIds
      && submissions[s].workerId in userIds
      && ScoresConsistent(submissions[s])
  }

  /** Every audit record refers to a known job, and its actor, when it has one, is a known user. */
  ghost predicate AuditValid(log: seq<AuditEntry>, jobIds: set<Id>, userIds: set<Id>) {
    forall i :: 0 <= i < |log| ==>
      && log[i].jobId in jobIds
      && (log[i].actorId.Some? ==> log[i].actorId.value in userIds)
  }

  /** Every id in use lies below the counter, so the counter's value is fresh. */
  ghost predicate IdsBelow(userIds: set<Id>, jobIds: set<Id>, submissionIds: set<Id>, nextId: Id) {
    forall x :: (x in userIds || x in jobIds || x in submissionIds) ==> x < nextId
  }

  /**
   * The store's invariant: referential integrity, unique handles and ids, a
   * fresh counter, and what the routes keep true of the data (every job OPEN
   * with one LOCKED escrow holding its reward, scores matching status).
   */
  ghost predicate StoreInvariant(
    jobs: map<Id, Job>, escrows: map<Id, Escrow>, users: map<string, Id>,
    submissions: map<Id, Submission>, log: seq<AuditEntry>, nextId: Id)
  {
    && UsersValid(users)
    && JobsValid(jobs, escrows, users.Values)
    && SubmissionsValid(submissions, jobs.Keys, users.Values)
    && AuditValid(log, jobs.Keys, users.Values)
    && IdsBelow(users.Values, jobs.Keys, submissions.Keys, nextId)
  }

  /** The users table after a get-or-create by handle, the user's id, and the counter after it. */
  datatype Upserted = Upserted(users: map<string, Id>, id: Id, nextId: Id)

  /**
   * `prisma.user.upsert` with `update: {}` (and `connectOrCreate`): the user
   * with this handle is reused untouched, or created under the counter's id.
   */
  function Upsert(users: map<string, Id>, handle: string, nextId: Id): (r: Upserted)
    ensures handle in r.users && r.users[handle] == r.id
    ensures handle in users ==> r.users == users && r.id == users[handle] && r.nextId == nextId
    ensures handle !in users ==> r.id == nextId && r.nextId == nextId + 1
    ensures users.Keys <= r.users.Keys && r.users.Keys - users.Keys <= {handle}
    ensures forall h :: h in users ==> r.users[h] == users[h]
  {
    if handle in users then Upserted(users, users[handle], nextId)
    else Upserted(users[handle := nextId], nextId, nextId + 1)
  }

  /** Upserting the same handle again changes nothing and returns the same user. */
  lemma UpsertIdempotent(users: map<string, Id>, handle: string, nextId: Id, laterId: Id)
    ensures var first := Upsert(users, handle, nextId);
      Upsert(first.users, handle, laterId) == Upserted(first.users, first.id, laterId)
  {
  }

  /** A get-or-create keeps the invariant, and the user it returns is known. */
  lemma InvariantAfterUpsert(
    jobs: map<Id, Job>, escrows: map<Id, Escrow>, users: map<string, Id>,
    submissions: map<Id, Submission>, log: seq<AuditEntry>, nextId: Id, handle: string)
    requires StoreInvariant(jobs, escrows, users, submissions, log, nextId)
    ensures var r := Upsert(users, handle, nextId);
      && r.id in r.users.Values
      && (handle !in users ==> r.id !in users.Values)
      && StoreInvariant(jobs, escrows, r.users, submissions, log, r.nextId)
  {
    if handle !in users {
      var users' := users[handle := nextId];
      assert users'.Values == users.Values + {nextId} by {
        forall x | x in users.Values ensures x in users'.Values {
          var h :| h in users && users[h] == x;
          assert users'[h] == x;
        }
        assert users'[handle] == nextId;
      }
      assert UsersValid(users') by {
        forall h1, h2 | h1 in users' && h2 in users' && h1 != h2
          ensures users'[h1] != users'[h2]
        {
          if h1 == handle {
            assert users'[h2] in users.Values;
          } else if h2 == handle {
            assert users'[h1] in users.Values;
          }
        }
      }
    }
  }

  /** Inserting an OPEN job under the counter's id with its LOCKED escrow and JOB_CREATED record keeps the invariant. */
  lemma InvariantAfterNewJob(
    jobs: map<Id, Job>, escrows: map<Id, Escrow>, users: map<string, Id>,
    submissions: map<Id, Submission>, log: seq<AuditEntry>, nextId: Id, job: Job)
    requires StoreInvariant(jobs, escrows, users, submissions, log, nextId)
    requires job.status == Open && job.rewardTokens > 0 && job.requesterId in users.Values
    ensures nextId !in jobs && nextId !in submissions
    ensures StoreInvariant(jobs[nextId := job], escrows[nextId := Escrow(job.rewardTokens, Locked)], users,
                           submissions, log + [AuditEntry(nextId, None, JobCreated(job.rewardTokens))], nextId + 1)
  {
    var jobs' := jobs[nextId := job];
    assert jobs'.Keys == jobs.Keys + {nextId};
    var log' := log + [AuditEntry(nextId, None, JobCreated(job.rewardTokens))];
    assert AuditValid(log', jobs'.Keys, users.Values) by {
      forall i | 0 <= i < |log'|
        ensures log'[i].jobId in jobs'.Keys
        ensures log'[i].actorId.Some? ==> log'[i].actorId.value in users.Values
      {
        if i < |log| {
          assert log'[i] == log[i];
        }
      }
    }
  }

  /** Storing a submission of a known job and worker whose scores match its status keeps the invariant. */
  lemma InvariantAfterStore(
    jobs: map<Id, Job>, escrows: map<Id, Escrow>, users: map<string, Id>,
    submissions: map<Id, Submission>, log: seq<AuditEntry>, nextId: Id,
    id: Id, sub: Submission, entry: AuditEntry, nextId': Id)
    requires StoreInvariant(jobs, escrows, users, submissions, log, nextId)
    requires sub.jobId in jobs && sub.workerId in users.Values && ScoresConsistent(sub)
    requires entry.jobId in jobs && (entry.actorId.Some? ==> entry.actorId.value in users.Values)
    requires (id in submissions && nextId' == nextId) || (id == nextId && nextId' == nextId + 1)
    ensures StoreInvariant(jobs, escrows, users, submissions[id := sub], log + [entry], nextId')
  {
    var log' := log + [entry];
    assert AuditValid(log', jobs.Keys, users.Values) by {
      forall i | 0 <= i < |log'|
        ensures log'[i].jobId in jobs
        ensures log'[i].actorId.Some? ==> log'[i].actorId.value in users.Values
      {
        if i < |log| {
          assert log'[i] == log[i];
        }
      }
    }
  }

  class Store {
    var jobs: map<Id, Job>
    /** Keyed by the id of the job it belongs to. */
    var escrows: map<Id, Escrow>
    /** Keyed by handle, which makes handles unique. */
    var users: map<string, Id>
    var submissions: map<Id, Submission>
    /** Append-only. */
    var auditLog: seq<AuditEntry>
    /** The next fresh id. */
    var nextId: Id

    ghost predicate Valid()
      reads this
    {
      StoreInvariant(jobs, escrows, users, submissions, auditLog, nextId)
    }

    constructor ()
      ensures Valid()
      ensures jobs == map[] && escrows == map[] && users == map[] && submissions == map[] && auditLog == []
    {
      jobs, escrows, users, submissions, auditLog := map[], map[], map[], map[], [];
      nextId := 0;
    }

    /** `POST /jobs`: a job, its LOCKED escrow and a JOB_CREATED audit record. */
    method CreateJob(title: string, prompt: string, rewardTokens: real, deadlineAt: Option<int>)
      returns (r: Result<CreatedJob, ApiError>)
      requires Valid()
      modifies this
      ensures Valid()
      ensures r.Ok? <==> ValidCreateJob(title, prompt, rewardTokens, deadlineAt)
      ensures r.Err? ==> r.error == ValidationError && unchanged(this)
      ensures r.Ok? ==>
        var id := r.value.id;
        && id !in old(jobs) && id !in old(submissions)
        && SystemRequesterHandle in users
        && r.value.job == Job(title, prompt, r.value.job.rewardTokens, deadlineAt.value, Open,
                              users[SystemRequesterHandle])
        && r.value.job.rewardTokens as real == rewardTokens
        && r.value.escrow == Escrow(r.value.job.rewardTokens, Locked)
        && jobs == old(jobs)[id := r.value.job]
        && escrows == old(escrows)[id := r.value.escrow]
        && submissions == old(submissions)
        && (SystemRequesterHandle in old(users) ==> users == old(users))
        && (SystemRequesterHandle !in old(users) ==>
              users == old(users)[SystemRequesterHandle := users[SystemRequesterHandle]])
        && auditLog == old(auditLog) + [AuditEntry(id, None, JobCreated(r.value.job.rewardTokens))]
        && auditLog[|auditLog| - 1].event.Action() == "JOB_CREATED"
    {
      if !ValidCreateJob(title, prompt, rewardTokens, deadlineAt) {
        return Err(ValidationError);
      }
      var reward: nat := rewardTokens.Floor;
      var requester := Upsert(users, SystemRequesterHandle, nextId);
      InvariantAfterUpsert(jobs, escrows, users, submissions, auditLog, nextId, SystemRequesterHandle);
      var id := requester.nextId;
      var job := Job(title, prompt, reward, deadlineAt.value, Open, requester.id);
      var escrow := Escrow(reward, Locked);
      InvariantAfterNewJob(jobs, escrows, requester.users, submissions, auditLog, id, job);
      jobs, escrows, users, auditLog, nextId :=
        jobs[id := job], escrows[id := escrow], requester.users,
        auditLog + [AuditEntry(id, None, JobCreated(reward))], id + 1;
      r := Ok(CreatedJob(id, job, escrow));
    }

    /** `GET /jobs/:id`: the job with its submissions and escrow. */
    method GetJob(jobId: Id) returns (r: Result<JobDetails, ApiError>)
      requires Valid()
      ensures r.Ok? <==> jobId in jobs
      ensures r.Err? ==> r.error == JobNotFound
      ensures r.Ok? ==>
        && r.value.job == jobs[jobId]
        && r.value.escrow == escrows[jobId]
        && (forall s :: s in r.value.submissions <==> s in submissions && submissions[s].jobId == jobId)
        && (forall s :: s in r.value.submissions ==> r.value.submissions[s] == submissions[s])
    {
      if jobId !in jobs {
        return Err(JobNotFound);
      }
      var own := map s | s in submissions && submissions[s].jobId == jobId :: submissions[s];
      r := Ok(JobDetails(jobs[jobId], own, escrows[jobId]));
    }

    /** `POST /jobs/:id/submissions`: a PENDING submission by the named worker. */
    method CreateSubmission(jobId: Id, workerHandle: string, content: string, latencyMs: real)
      returns (r: Result<CreatedSubmission, ApiError>)
      requires Valid()
      modifies this
      ensures Valid()
      ensures r.Ok? <==> ValidCreateSubmission(workerHandle, content, latencyMs) && jobId in old(jobs)
      ensures !ValidCreateSubmission(workerHandle, content, latencyMs) ==> r == Err(ValidationError)
      ensures ValidCreateSubmission(workerHandle, content, latencyMs) && jobId !in old(jobs) ==>
        r == Err(JobNotFound)
      ensures r.Err? ==> unchanged(this)
      ensures r.Ok? ==>
        && r.value.submission.latencyMs as real == latencyMs
        && SubmissionAdded(jobId, workerHandle, content, r.value)
    {
      if !ValidCreateSubmission(workerHandle, content, latencyMs) {
        return Err(ValidationError);
      }
      if jobId !in jobs {
        return Err(JobNotFound);
      }
      var created := AddSubmission(jobId, workerHandle, content, latencyMs.Floor);
      r := Ok(created);
    }

    /**
     * How a successful submission changes the store: the worker is reused or
     * created, a new PENDING submission without scores is stored under a fresh
     * id, one SUBMISSION_CREATED record by the worker is appended, and the
     * jobs and escrows are untouched.
     */
    twostate predicate SubmissionAdded(jobId: Id, workerHandle: string, content: string, created: CreatedSubmission)
      reads this
    {
      var id, sub := created.id, created.submission;
      && id !in old(submissions) && id !in old(jobs)
      && workerHandle in users
      && sub == Submission(jobId, users[workerHandle], content, sub.latencyMs, None, None, None, Pending)
      && submissions == old(submissions)[id := sub]
      && jobs == old(jobs) && escrows == old(escrows)
      && (workerHandle in old(users) ==> users == old(users))
      && (workerHandle !in old(users) ==>
            && users == old(users)[workerHandle := users[workerHandle]]
            && sub.workerId !in old(users.Values))
      && auditLog == old(auditLog) + [AuditEntry(jobId, Some(sub.workerId), SubmissionCreated(id, sub.latencyMs))]
      && auditLog[|auditLog| - 1].event.Action() == "SUBMISSION_CREATED"
    }

    /** The writes of `POST /jobs/:id/submissions` once the body is valid and the job exists. */
    method AddSubmission(jobId: Id, workerHandle: string, content: string, latency: nat)
      returns (created: CreatedSubmission)
      requires Valid() && jobId in jobs
      modifies this
      ensures Valid()
      ensures created.submission.latencyMs == latency
      ensures SubmissionAdded(jobId, workerHandle, content, created)
    {
      var worker := Upsert(users, workerHandle, nextId);
      InvariantAfterUpsert(jobs, escrows, users, submissions, auditLog, nextId, workerHandle);
      var id := worker.nextId;
      var sub := Submission(jobId, worker.id, content, latency, None, None, None, Pending);
      var entry := AuditEntry(jobId, Some(worker.id), SubmissionCreated(id, latency));
      InvariantAfterStore(jobs, escrows, worker.users, submissions, auditLog, id, id, sub, entry, id + 1);
      assert id !in submissions && id !in jobs;
      users, submissions, auditLog, nextId := worker.users, submissions[id := sub], auditLog + [entry], id + 1;
      assert auditLog[|auditLog| - 1] == entry;
      created := CreatedSubmission(id, sub);
    }

    /** `prisma.submission.findFirst` on id and job id together: no match under another job. */
    function FindSubmission(jobId: Id, submissionId: Id): (r: Option<Submission>)
      reads this
    {
      if submissionId in submissions && submissions[submissionId].jobId == jobId then
        Some(submissions[submissionId])
      else
        None
    }

    /** `POST /jobs/:id/score`: overwrite the three scores and mark the submission SCORED. */
    method ScoreSubmission(jobId: Id, submissionId: Id, quality: real) returns (r: Result<ScoreReply, ApiError>)
      requires Valid()
      modifies this
      ensures Valid()
      ensures r.Ok? <==>
        ValidScore(quality) && submissionId in old(submissions) && old(submissions)[submissionId].jobId == jobId
      ensures !ValidScore(quality) ==> r == Err(ValidationError)
      ensures ValidScore(quality) && (submissionId !in old(submissions) || old(submissions)[submissionId].jobId != jobId)
        ==> r == Err(SubmissionNotFound)
      ensures r.Err? ==> unchanged(this)
      ensures r.Ok? ==>
        var before, after := old(submissions)[submissionId], r.value.submission;
        var speed := Scoring.CalculateSpeed(before.latencyMs as real);
        var score := Scoring.ComputeFinalScore(quality, speed);
        && before.jobId == jobId
        && r.value == ScoreReply(after, score, quality, speed, ScoreFormula)
        && after.qualityScore == Some(quality)
        && after.speedScore == Some(speed)
        && after.finalScore == Some(score)
        && after.status == Scored
        && after.latencyMs == before.latencyMs
        && after.content == before.content
        && after.jobId == before.jobId
        && after.workerId == before.workerId
        && 0.0 <= score <= 1.0
        && submissions == old(submissions)[submissionId := after]
        && jobs == old(jobs) && escrows == old(escrows) && users == old(users)
        && auditLog == old(auditLog) + [AuditEntry(jobId, Some(before.workerId), SubmissionScored(submissionId, quality, speed, score))]
        && auditLog[|auditLog| - 1].event.Action() == "SUBMISSION_SCORED"
    {
      if !ValidScore(quality) {
        return Err(ValidationError);
      }
      var found := FindSubmission(jobId, submissionId);
      if found.None? {
        return Err(SubmissionNotFound);
      }
      var submission := found.value;
      var speed := RouteCalculateSpeed(submission.latencyMs as real);
      var score := RouteScore(quality, speed);
      RouteScoreBounds(quality, submission.latencyMs);
      var updated := submission.(qualityScore := Some(quality), speedScore := Some(speed),
                                 finalScore := Some(score), status := Scored);
      var entry := AuditEntry(jobId, Some(submission.workerId), SubmissionScored(submissionId, quality, speed, score));
      InvariantAfterStore(jobs, escrows, users, submissions, auditLog, nextId, submissionId, updated, entry, nextId);
      submissions, auditLog := submissions[submissionId := updated], auditLog + [entry];
      r := Ok(ScoreReply(updated, score, quality, speed, ScoreFormula));
    }
  }
}
