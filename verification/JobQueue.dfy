/** The durable ingestion queue (gmrag_api/src/ingestion/jobs.rs).

    A statement or transaction is one atomic step on the tables `ingestion_jobs` and `documents`.
    Timestamps other than `available_at`, `created_at` and `lease_expires_at` are not modelled. */
module JobQueue {
  import opened Wrappers
  import opened Backoff

  type Id = nat
  type Token = nat

  datatype JobStatus = Queued | Processing | Succeeded | JobDead

  datatype DocStatus = InProgress | Completed | Failed

  datatype Stage =
    | StageQueued | Parsing | Embedding | GraphExtraction | Saving | Indexing | Done | StageFailed

  datatype Fault = Fault(code: string, message: string)

  datatype Job = Job(document: Id, workspace: Id, status: JobStatus, attempts: I32, maxAttempts: I32,
                     availableAt: int, createdAt: int, lease: Option<int>,
                     claimedBy: Option<string>, token: Option<Token>, fault: Option<Fault>)

  datatype Document = Document(workspace: Id, status: DocStatus, stage: Stage, fault: Option<Fault>)

  datatype ClaimedJob = ClaimedJob(id: Id, document: Id, workspace: Id, attempts: I32, maxAttempts: I32, token: Token)

  datatype WorkerConfig = WorkerConfig(batchSize: nat, maxAttempts: I32, leaseSecs: int, backoff: BackoffConfig)

  datatype JobFailure = JobFailure(code: string, message: string, retryable: bool)

  datatype Eligibility = FailedOnly | FailedOrCompleted

  datatype Tables = Tables(now: int, jobs: map<Id, Job>, docs: map<Id, Document>)

  // ----- The statements -----

  predicate Active(j: Job) {
    j.status == Queued || j.status == Processing
  }

  ghost predicate HasActiveJob(t: Tables, document: Id) {
    exists id | id in t.jobs :: Active(t.jobs[id]) && t.jobs[id].document == document
  }

  /** The guard that every operation of a claim's owner repeats. */
  predicate Owns(t: Tables, c: ClaimedJob, worker: string) {
    && c.id in t.jobs && t.jobs[c.id].status == Processing
    && t.jobs[c.id].claimedBy == Some(worker) && t.jobs[c.id].token == Some(c.token)
  }

  predicate LeaseLive(t: Tables, id: Id) {
    id in t.jobs && t.jobs[id].lease.Some? && t.jobs[id].lease.value > t.now
  }

  predicate Claimable(j: Job, now: int) {
    || (j.status == Queued && j.availableAt <= now)
    || (j.status == Processing && j.lease.Some? && j.lease.value < now)
  }

  /** Rows that a claim may take: claimable, of the wanted document, and not locked by another
      transaction (`SKIP LOCKED`). */
  function Candidates(t: Tables, document: Option<Id>, locked: set<Id>): set<Id> {
    set id | id in t.jobs && Claimable(t.jobs[id], t.now) && id !in locked
             && (document == None || Some(t.jobs[id].document) == document)
  }

  /** `ORDER BY available_at, created_at`; ties are the database's choice. */
  predicate NoLaterThan(a: Job, b: Job) {
    a.availableAt < b.availableAt || (a.availableAt == b.availableAt && a.createdAt <= b.createdAt)
  }

  /** `LIMIT`: as many candidates as the batch takes, none behind one that is left. */
  predicate Selects(t: Tables, document: Option<Id>, locked: set<Id>, batch: nat, ids: set<Id>) {
    var all := Candidates(t, document, locked);
    && ids <= all && |ids| == Min(batch, |all|)
    && forall i, j | i in ids && j in all - ids :: NoLaterThan(t.jobs[i], t.jobs[j])
  }

  function Claimed(j: Job, worker: string, token: Token, lease: int): Job
    requires j.attempts < I32_MAX
  {
    j.(status := Processing, claimedBy := Some(worker), token := Some(token), lease := Some(lease),
       attempts := j.attempts + 1)
  }

  /** `attempt_count + 1` must fit its column, or the statement fails as a whole. */
  predicate CountsFit(t: Tables, ids: set<Id>) {
    forall id | id in ids && id in t.jobs :: t.jobs[id].attempts < I32_MAX
  }

  function ClaimRows(t: Tables, worker: string, leaseSecs: int, grant: map<Id, Token>): Tables
    requires CountsFit(t, grant.Keys)
  {
    t.(jobs := map id | id in t.jobs ::
                 if id in grant then Claimed(t.jobs[id], worker, grant[id], t.now + leaseSecs) else t.jobs[id])
  }

  function ClaimOf(id: Id, j: Job, token: Token): ClaimedJob {
    ClaimedJob(id, j.document, j.workspace, j.attempts, j.maxAttempts, token)
  }

  function ExtendedLease(t: Tables, c: ClaimedJob, worker: string, leaseSecs: int): (Tables, bool) {
    if Owns(t, c, worker)
    then (t.(jobs := t.jobs[c.id := t.jobs[c.id].(lease := Some(t.now + leaseSecs))]), true)
    else (t, false)
  }

  predicate HasDocument(t: Tables, document: Id, workspace: Id) {
    document in t.docs && t.docs[document].workspace == workspace
  }

  function WithDocument(t: Tables, document: Id, workspace: Id, status: DocStatus, stage: Stage,
          fault: Option<Fault>): Tables {
    if HasDocument(t, document, workspace)
    then t.(docs := t.docs[document := Document(workspace, status, stage, fault)])
    else t
  }

  function StageSet(t: Tables, c: ClaimedJob, worker: string, stage: Stage): (Tables, bool) {
    if HasDocument(t, c.document, c.workspace) && Owns(t, c, worker) && LeaseLive(t, c.id)
    then (t.(docs := t.docs[c.document := t.docs[c.document].(stage := stage)]), true)
    else (t, false)
  }

  function CompletedJob(t: Tables, c: ClaimedJob, worker: string): (Tables, bool) {
    if Owns(t, c, worker) && LeaseLive(t, c.id)
    then
      var job := t.jobs[c.id].(status := Succeeded, lease := None, fault := None);
      (WithDocument(t.(jobs := t.jobs[c.id := job]), c.document, c.workspace, Completed, Done, None), true)
    else (t, false)
  }

  predicate IsControl(c: char) {
    c as int < 0x20 || 0x7F <= c as int < 0xA0
  }

  function WithoutControls(s: string): string {
    if s == "" then "" else (if IsControl(s[0]) then "" else [s[0]]) + WithoutControls(s[1..])
  }

  function Sanitized(message: string): string {
    var kept := WithoutControls(message);
    if |kept| <= 240 then kept else kept[..240]
  }

  function RetriedJob(t: Tables, c: ClaimedJob, failure: JobFailure, delay: int): Tables
    requires c.id in t.jobs
  {
    var job := t.jobs[c.id].(status := Queued, availableAt := t.now + delay, lease := None, claimedBy := None,
                             token := None, fault := Some(Fault(failure.code, Sanitized(failure.message))));
    var u := t.(jobs := t.jobs[c.id := job]);
    if HasDocument(u, c.document, c.workspace)
    then u.(docs := u.docs[c.document := u.docs[c.document].(status := InProgress, stage := StageQueued)])
    else u
  }

  const ATTEMPTS_EXCEEDED := Fault("INGESTION_MAX_ATTEMPTS_EXCEEDED",
                                   "Ingestion could not be completed after the configured retry limit")

  function DeadJob(t: Tables, c: ClaimedJob, failure: JobFailure): Tables
    requires c.id in t.jobs
  {
    var why := if failure.retryable then ATTEMPTS_EXCEEDED else Fault(failure.code, failure.message);
    var fault := Some(Fault(why.code, Sanitized(why.message)));
    var job := t.jobs[c.id].(status := JobDead, lease := None, fault := fault);
    WithDocument(t.(jobs := t.jobs[c.id := job]), c.document, c.workspace, Failed, StageFailed, fault)
  }

  function Disposition(j: Job, retryable: bool, config: WorkerConfig): FailureDisposition {
    DispositionAfterFailure(SaturatingPred(j.attempts), Min(j.maxAttempts, config.maxAttempts), !retryable,
      config.backoff)
  }

  function FailedJob(t: Tables, c: ClaimedJob, worker: string, failure: JobFailure, config: WorkerConfig): (Tables,
          Option<bool>) {
    if Owns(t, c, worker) && LeaseLive(t, c.id)
    then match Disposition(t.jobs[c.id], failure.retryable, config)
      case Retryable(_, delay) => (RetriedJob(t, c, failure, delay), Some(false))
      case Dead(_) => (DeadJob(t, c, failure), Some(true))
    else (t, None)
  }

  /** `enqueue_job_tx`: the defaults of the table make a queued job that is available at once. */
  function Enqueued(t: Tables, id: Id, document: Id, workspace: Id, maxAttempts: I32): Tables {
    t.(jobs := t.jobs[id := Job(document, workspace, Queued, 0, maxAttempts, t.now, t.now, None, None, None, None)])
  }

  /** The upload transaction: a new document together with its first job. */
  function Uploaded(t: Tables, document: Id, workspace: Id, id: Id, maxAttempts: I32): Tables {
    Enqueued(t.(docs := t.docs[document := Document(workspace, InProgress, StageQueued, None)]), id, document,
      workspace, maxAttempts)
  }

  predicate Eligible(status: DocStatus, eligibility: Eligibility) {
    status == Failed || (status == Completed && eligibility == FailedOrCompleted)
  }

  ghost function Requeued(t: Tables, document: Id, workspace: Id, maxAttempts: I32, eligibility: Eligibility,
          id: Id): (Tables, bool) {
    if HasDocument(t, document, workspace) && Eligible(t.docs[document].status, eligibility)
        && !HasActiveJob(t, document)
    then (Enqueued(WithDocument(t, document, workspace, InProgress, StageQueued, None), id, document, workspace,
      maxAttempts), true)
    else (t, false)
  }

  const JOB_MISSING := Some(Fault("INGESTION_JOB_MISSING",
                                  "No durable ingestion job exists for this legacy processing document"))

  ghost predicate Orphaned(t: Tables, document: Id) {
    document in t.docs && t.docs[document].status == InProgress && !HasActiveJob(t, document)
  }

  ghost function Recovered(t: Tables): Tables {
    t.(docs := map d | d in t.docs ::
                 if Orphaned(t, d) then Document(t.docs[d].workspace, Failed, StageFailed, JOB_MISSING) else t.docs[d])
  }

  /** Deleting a document cascades to its jobs. */
  function DocumentDeleted(t: Tables, document: Id): Tables {
    t.(docs := t.docs - {document}, jobs := map id | id in t.jobs && t.jobs[id].document != document :: t.jobs[id])
  }

  // ----- The operations on the tables -----

  class JobStore {
    var now: int
    var jobs: map<Id, Job>
    var docs: map<Id, Document>

    function T(): Tables
      reads this
    {
      Tables(now, jobs, docs)
    }

    /** `claim_jobs_filtered`; `newToken` is the fresh UUID drawn for each row. */
    method ClaimJobs(worker: string, config: WorkerConfig, document: Option<Id>, locked: set<Id>, newToken: Id -> Token)
      returns (claimed: Option<set<ClaimedJob>>)
      modifies this
      ensures exists ids ::
                && Selects(old(T()), document, locked, config.batchSize, ids)
                && ClaimOutcome(old(T()), worker, config.leaseSecs, Grant(ids, newToken), T(), claimed)
    {
      ghost var choice := Select(T(), document, locked, config.batchSize);
      assert Selects(T(), document, locked, config.batchSize, choice);
      var ids :| Selects(T(), document, locked, config.batchSize, ids);
      SelectedAreRows(T(), document, locked, config.batchSize, ids);
      if exists id | id in ids :: jobs[id].attempts == I32_MAX {
        claimed := None;
      } else {
        jobs := map id | id in jobs ::
          if id in ids then Claimed(jobs[id], worker, newToken(id), now + config.leaseSecs) else jobs[id];
        claimed := Some(ClaimsOf(T(), Grant(ids, newToken)));
      }
      assert Selects(old(T()), document, locked, config.batchSize, ids);
      assert ClaimOutcome(old(T()), worker, config.leaseSecs, Grant(ids, newToken), T(), claimed);
    }

    method ExtendLease(job: ClaimedJob, worker: string, leaseSecs: int) returns (extended: bool)
      modifies this
      ensures (T(), extended) == ExtendedLease(old(T()), job, worker, leaseSecs)
    {
      extended := Owns(T(), job, worker);
      if extended {
        jobs := jobs[job.id := jobs[job.id].(lease := Some(now + leaseSecs))];
      }
    }

    method SetStageForOwner(job: ClaimedJob, worker: string, stage: Stage) returns (changed: bool)
      modifies this
      ensures (T(), changed) == StageSet(old(T()), job, worker, stage)
    {
      changed := HasDocument(T(), job.document, job.workspace) && Owns(T(), job, worker) && LeaseLive(T(), job.id);
      if changed {
        docs := docs[job.document := docs[job.document].(stage := stage)];
      }
    }

    method CompleteJobAndDocument(job: ClaimedJob, worker: string) returns (completed: bool)
      modifies this
      ensures (T(), completed) == CompletedJob(old(T()), job, worker)
    {
      if !Owns(T(), job, worker) || !LeaseLive(T(), job.id) {
        return false;
      }
      jobs := jobs[job.id := jobs[job.id].(status := Succeeded, lease := None, fault := None)];
      UpdateDocument(job, Completed, Done, None);
      completed := true;
    }

    /** The document's half of a terminal transaction; no row matches when the document is gone. */
    method UpdateDocument(job: ClaimedJob, status: DocStatus, stage: Stage, fault: Option<Fault>)
      modifies this`docs
      ensures T() == WithDocument(old(T()), job.document, job.workspace, status, stage, fault)
    {
      if HasDocument(T(), job.document, job.workspace) {
        docs := docs[job.document := Document(job.workspace, status, stage, fault)];
      }
    }

    method FinishJobFailure(job: ClaimedJob, worker: string, failure: JobFailure, config: WorkerConfig)
      returns (finished: Option<bool>)
      modifies this
      ensures (T(), finished) == FailedJob(old(T()), job, worker, failure, config)
    {
      if !Owns(T(), job, worker) || !LeaseLive(T(), job.id) {
        return None;
      }
      var row := jobs[job.id];
      match DispositionAfterFailure(SaturatingPred(row.attempts), Min(row.maxAttempts, config.maxAttempts),
                                    !failure.retryable, config.backoff) {
        case Retryable(_, backoffSecs) =>
          jobs := jobs[job.id := row.(status := Queued, availableAt := now + backoffSecs, lease := None,
                                      claimedBy := None, token := None,
                                      fault := Some(Fault(failure.code, Sanitized(failure.message))))];
          if HasDocument(T(), job.document, job.workspace) {
            docs := docs[job.document := docs[job.document].(status := InProgress, stage := StageQueued)];
          }
          finished := Some(false);
        case Dead(_) =>
          var why := if failure.retryable then ATTEMPTS_EXCEEDED else Fault(failure.code, failure.message);
          var fault := Some(Fault(why.code, Sanitized(why.message)));
          jobs := jobs[job.id := row.(status := JobDead, lease := None, fault := fault)];
          UpdateDocument(job, Failed, StageFailed, fault);
          finished := Some(true);
      }
    }

    method EnqueueJob(id: Id, document: Id, workspace: Id, maxAttempts: I32)
      modifies this`jobs
      ensures T() == Enqueued(old(T()), id, document, workspace, maxAttempts)
    {
      jobs := jobs[id := Job(document, workspace, Queued, 0, maxAttempts, now, now, None, None, None, None)];
    }

    /** `requeue_document_for_reingest`; `id` is the UUID drawn for the new job. */
    method RequeueDocument(document: Id, workspace: Id, maxAttempts: I32, eligibility: Eligibility, id: Id)
      returns (requeued: bool)
      modifies this
      ensures (T(), requeued) == Requeued(old(T()), document, workspace, maxAttempts, eligibility, id)
    {
      var found := HasDocument(T(), document, workspace);
      if !found || !Eligible(docs[document].status, eligibility)
         || exists j | j in jobs :: Active(jobs[j]) && jobs[j].document == document
      {
        return false;
      }
      docs := docs[document := Document(workspace, InProgress, StageQueued, None)];
      EnqueueJob(id, document, workspace, maxAttempts);
      requeued := true;
    }

    method RecoverLegacyProcessingDocuments() returns (recovered: nat)
      modifies this
      ensures T() == Recovered(old(T()))
      ensures recovered == |set d | d in old(T()).docs && Orphaned(old(T()), d)|
    {
      var orphans := set d | d in docs && docs[d].status == InProgress
                             && !exists j | j in jobs :: Active(jobs[j]) && jobs[j].document == d;
      assert orphans == set d | d in old(T()).docs && Orphaned(old(T()), d);
      docs := map d | d in docs ::
        if d in orphans then Document(docs[d].workspace, Failed, StageFailed, JOB_MISSING) else docs[d];
      recovered := |orphans|;
    }
  }

  function ClaimsOf(t: Tables, grant: map<Id, Token>): set<ClaimedJob>
    requires grant.Keys <= t.jobs.Keys
  {
    set id | id in grant :: ClaimOf(id, t.jobs[id], grant[id])
  }

  function Grant(ids: set<Id>, newToken: Id -> Token): map<Id, Token> {
    map id | id in ids :: newToken(id)
  }

  /** A claim takes all granted rows, or none when a count no longer fits. */
  predicate ClaimOutcome(t: Tables, worker: string, leaseSecs: int, grant: map<Id, Token>, u: Tables,
          claimed: Option<set<ClaimedJob>>)
    requires grant.Keys <= t.jobs.Keys
  {
    if CountsFit(t, grant.Keys)
    then u == ClaimRows(t, worker, leaseSecs, grant)
         && claimed == Some(ClaimsOf(u, grant))
    else u == t && claimed == None
  }

  ghost predicate Earliest(t: Tables, ids: set<Id>, m: Id)
    requires ids <= t.jobs.Keys
  {
    m in ids && forall j | j in ids :: NoLaterThan(t.jobs[m], t.jobs[j])
  }

  lemma {:induction false} FindEarliest(t: Tables, ids: set<Id>) returns (m: Id)
    requires ids != {} && ids <= t.jobs.Keys
    ensures Earliest(t, ids, m)
  {
    m :| m in ids;
    var rest := ids - {m};
    if rest == {} {
      assert forall j | j in ids :: j in rest || j == m;
    } else {
      var n := FindEarliest(t, rest);
      if NoLaterThan(t.jobs[n], t.jobs[m]) {
        m := n;
      } else {
        assert forall j | j in rest :: NoLaterThan(t.jobs[m], t.jobs[j]);
      }
    }
  }

  lemma SelectedAreRows(t: Tables, document: Option<Id>, locked: set<Id>, batch: nat, ids: set<Id>)
    requires Selects(t, document, locked, batch, ids)
    ensures ids <= t.jobs.Keys && forall id | id in ids :: Claimable(t.jobs[id], t.now) && id !in locked
  {
    assert Candidates(t, document, locked) <= t.jobs.Keys;
  }

  lemma SelectionGrows(t: Tables, document: Option<Id>, locked: set<Id>, batch: nat, ids: set<Id>, m: Id)
    requires Selects(t, document, locked, batch, ids)
    requires ids < Candidates(t, document, locked) && Earliest(t, Candidates(t, document, locked) - ids, m)
    ensures Selects(t, document, locked, batch + 1, ids + {m})
  {
    hide Candidates, NoLaterThan;
    var all := Candidates(t, document, locked);
    assert |all| == |ids| + |all - ids| && |all - ids| >= 1 by {
      assert all == ids + (all - ids);
      assert m in all - ids;
    }
    assert |ids + {m}| == |ids| + 1;
  }

  lemma {:induction false} Select(t: Tables, document: Option<Id>, locked: set<Id>, batch: nat) returns (ids: set<Id>)
    ensures Selects(t, document, locked, batch, ids)
  {
    hide Claimable, NoLaterThan, Earliest;
    var all := Candidates(t, document, locked);
    ids := {};
    if batch > 0 {
      ids := Select(t, document, locked, batch - 1);
      if ids < all {
        assert all - ids != {};
        var m := FindEarliest(t, all - ids);
        SelectionGrows(t, document, locked, batch - 1, ids, m);
        ids := ids + {m};
      } else {
        assert ids == all;
      }
    }
  }
}
