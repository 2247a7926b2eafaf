/** What the operations of the ingestion queue leave behind, field by field, and what a document's
    status says of its jobs (gmrag_api/src/ingestion/jobs.rs). */
module QueueEffects {
  import opened Wrappers
  import opened Backoff
  import opened JobQueue
  import opened QueueRuns

  /** Only the row of job `id` and the row of `document` may differ. */
  ghost predicate OthersStay(t: Tables, u: Tables, id: Id, document: Id) {
    && u.now == t.now && u.jobs.Keys == t.jobs.Keys && u.docs.Keys == t.docs.Keys
    && (forall i | i in t.jobs && i != id :: u.jobs[i] == t.jobs[i])
    && (forall d | d in t.docs && d != document :: u.docs[d] == t.docs[d])
  }

  /** Two rows are of the same job, with the same counts. */
  predicate SameJob(j: Job, k: Job) {
    && k.document == j.document && k.workspace == j.workspace && k.createdAt == j.createdAt
    && k.attempts == j.attempts && k.maxAttempts == j.maxAttempts
  }

  // ----- Claims -----

  /** A claim marks exactly the granted rows, counts the attempt and sets the lease. */
  lemma ClaimShows(w: World, s: Step)
    requires s.TakeJobs? && Enabled(w, s)
    ensures var u := After(w, s).t;
            && u.now == w.t.now && u.docs == w.t.docs && u.jobs.Keys == w.t.jobs.Keys && s.grant.Keys <= u.jobs.Keys
            && (forall id | id in u.jobs && id !in s.grant :: u.jobs[id] == w.t.jobs[id])
            && (forall id | id in s.grant ::
                  var j, k := w.t.jobs[id], u.jobs[id];
                  && k.status == Processing && k.claimedBy == Some(s.worker) && k.token == Some(s.grant[id])
                  && k.lease == Some(w.t.now + s.config.leaseSecs) && k.attempts == j.attempts + 1
                  && k == j.(status := k.status, claimedBy := k.claimedBy, token := k.token, lease := k.lease,
                             attempts := k.attempts))
  {
    hide After, Enabled;
    TakenRows(w, s);
    forall id | id in w.t.jobs { TakenRow(w, s, id); }
  }

  /** Who is claimed: rows that wait and are available, or whose lease has run out; of the wanted
      document, unlocked; and as long as there are more than the batch takes, none that became available
      later (or as early, but was created later) than one that is left. */
  lemma ClaimTakesTheEarliest(w: World, s: Step, id: Id)
    requires s.TakeJobs? && Enabled(w, s) && id in w.t.jobs
    ensures var j := w.t.jobs[id];
            var ready := || (j.status == Queued && j.availableAt <= w.t.now)
                         || (j.status == Processing && j.lease.Some? && j.lease.value < w.t.now);
            var wanted := (s.wanted == None || s.wanted == Some(j.document)) && id !in s.locked;
            && (id in s.grant ==> ready && wanted)
            && (ready && wanted && id !in s.grant ==>
                  && |s.grant| == s.config.batchSize
                  && forall i | i in s.grant && i in w.t.jobs ::
                       w.t.jobs[i].availableAt < j.availableAt
                       || (w.t.jobs[i].availableAt == j.availableAt && w.t.jobs[i].createdAt <= j.createdAt))
  {
    var all, taken := Candidates(w.t, s.wanted, s.locked), s.grant.Keys;
    assert Selects(w.t, s.wanted, s.locked, s.config.batchSize, taken) && |taken| == |s.grant|;
    assert id in s.grant <==> id in taken;
    hide Enabled;
    if id in all && id !in taken { LeftForFullBatch(all, taken, id, s.config.batchSize); }
  }

  lemma LeftForFullBatch(all: set<Id>, taken: set<Id>, id: Id, batch: nat)
    requires taken <= all && |taken| == Min(batch, |all|) && id in all - taken
    ensures |taken| == batch
  {
    assert all == taken + (all - taken);
    assert |all - taken| > 0;
  }

  // ----- Heartbeats -----

  /** Between heartbeats of claim `c`, each of which lasts `secs`, the lease never runs out. */
  predicate Timely(now: int, steps: seq<Step>, c: Claim, secs: int, deadline: int)
    decreases |steps|
  {
    now < deadline && (steps != [] ==>
      match steps[0]
      case Tick(more) => Timely(now + more, steps[1..], c, secs, deadline)
      case Heartbeat(d, length) =>
        if d == c then length == secs && Timely(now, steps[1..], c, secs, now + secs)
        else Timely(now, steps[1..], c, secs, deadline)
      case _ => Timely(now, steps[1..], c, secs, deadline))
  }

  /** The lease of an owned job is what its owner's last heartbeat made it. */
  lemma LeaseAfter(w: World, s: Step, c: Claim)
    requires Inv(w) && Enabled(w, s) && c in w.claims && Owns(w.t, c.job, c.worker) && LeaseLive(w.t, c.job.id)
    requires s != Delete(c.job.document) && !((s.Complete? || s.Fail?) && s.c == c)
    ensures var u := After(w, s).t;
            && c in After(w, s).claims && Owns(u, c.job, c.worker)
            && u.now == w.t.now + (if s.Tick? then s.secs else 0)
            && u.jobs[c.job.id].lease
               == if s.Heartbeat? && s.c == c then Some(w.t.now + s.leaseSecs) else w.t.jobs[c.job.id].lease
  {
    OwnedStays(w, s, c);
    hide HasActiveJob, OneActive, DocumentsAgree, Leased;
    ClockOf(w, s);
    if !(ByOwner(s) && s.c == c) {
      LeaseProtects(w, s, c);
    }
  }

  lemma ClockOf(w: World, s: Step)
    requires Inv(w) && Enabled(w, s)
    ensures After(w, s).t.now == w.t.now + if s.Tick? then s.secs else 0
  {
    hide HasActiveJob, OneActive, DocumentsAgree, Leased;
    if ByOwner(s) {
      OwnerStepShape(w, s);
      hide After;
    } else if s.Upload? {
      UploadShape(w, s);
      hide After;
    } else if s.Requeue? {
      RequeueShape(w, s);
      hide After;
    }
  }

  lemma CompletionIsAccepted(t: Tables, c: Claim)
    requires Owns(t, c.job, c.worker) && LeaseLive(t, c.job.id)
    ensures CompletedJob(t, c.job, c.worker).1
  {
    hide Owns, LeaseLive;
  }

  lemma OwnedHasRow(t: Tables, c: Claim)
    requires Owns(t, c.job, c.worker)
    ensures c.job.id in t.jobs
  {
  }

  /** A worker whose heartbeats come in time still owns its job under a live lease after any run in
      which it reported no result and the document was not deleted; so its completion is accepted. */
  lemma {:induction false} TimelyHeartbeatsKeepJob(w: World, steps: seq<Step>, c: Claim, secs: int, deadline: int)
    requires Inv(w) && CanRun(w, steps) && c in w.claims && Owns(w.t, c.job, c.worker)
    requires w.t.jobs[c.job.id].lease == Some(deadline) && Timely(w.t.now, steps, c, secs, deadline)
    requires forall s | s in steps :: s != Delete(c.job.document) && !((s.Complete? || s.Fail?) && s.c == c)
    ensures var u := Run(w, steps).t;
            Owns(u, c.job, c.worker) && LeaseLive(u, c.job.id) && CompletedJob(u, c.job, c.worker).1
    decreases |steps|
  {
    hide Inv, After, Owns, CompletedJob;
    OwnedHasRow(w.t, c);
    if steps == [] {
      CompletionIsAccepted(w.t, c);
    } else {
      var s := steps[0];
      assert s in steps && forall r | r in steps[1..] :: r in steps;
      LeaseAfter(w, s, c);
      InvKept(w, s);
      OwnedHasRow(After(w, s).t, c);
      TimelyHeartbeatsKeepJob(After(w, s), steps[1..], c, secs,
                              if s.Heartbeat? && s.c == c then w.t.now + secs else deadline);
    }
  }

  // ----- Who may act -----

  /** The job is in progress under this very claim: its worker, and the token drawn for it. */
  predicate Held(t: Tables, c: Claim) {
    && c.job.id in t.jobs && t.jobs[c.job.id].status == Processing
    && t.jobs[c.job.id].claimedBy == Some(c.worker) && t.jobs[c.job.id].token == Some(c.job.token)
  }

  /** The job's lease has not run out; it has when its last second is reached. */
  predicate InTime(t: Tables, c: Claim) {
    c.job.id in t.jobs && t.jobs[c.job.id].lease.Some? && t.now < t.jobs[c.job.id].lease.value
  }

  /** A heartbeat moves the lease exactly of a job that is held, be it in time or late. */
  lemma HeartbeatIff(w: World, c: Claim, secs: int)
    requires Enabled(w, Heartbeat(c, secs))
    ensures var v, t, id := After(w, Heartbeat(c, secs)), w.t, c.job.id;
            if Held(t, c)
            then v == w.(t := t.(jobs := t.jobs[id := t.jobs[id].(lease := Some(t.now + secs))]))
            else v == w
  {
  }

  // ----- Stages -----

  /** A stage is set exactly for an owner under a live lease, and nothing else changes. */
  lemma StageShows(w: World, c: Claim, stage: Stage)
    requires Inv(w) && c in w.claims
    ensures var u, t := After(w, SetStage(c, stage)).t, w.t;
            if Held(t, c) && InTime(t, c)
            then && u.jobs == t.jobs && OthersStay(t, u, c.job.id, c.job.document)
                 && c.job.document in u.docs
                 && u.docs[c.job.document].stage == stage
                 && u.docs[c.job.document].status == t.docs[c.job.document].status
                 && u.docs[c.job.document].fault == t.docs[c.job.document].fault
            else u == t
  {
    hide HasActiveJob, OneActive, DocumentsAgree, Leased;
  }

  // ----- Results -----

  /** An accepted completion: the job succeeded, its document is completed, with no fault left on
      either, and nothing else changed. */
  lemma CompletionShows(w: World, c: Claim)
    requires Inv(w) && Enabled(w, Complete(c)) && Reports(w, Complete(c), c.job.id)
    ensures var u, t, id := After(w, Complete(c)).t, w.t, c.job.id;
            && OthersStay(t, u, id, c.job.document) && id in u.jobs && c.job.document in u.docs
            && u.jobs[id].status == Succeeded && u.jobs[id].fault == None && u.jobs[id].lease == None
            && SameJob(t.jobs[id], u.jobs[id])
            && u.docs[c.job.document].status == Completed && u.docs[c.job.document].stage == Done
            && u.docs[c.job.document].fault == None
            && u.docs[c.job.document].workspace == t.docs[c.job.document].workspace
  {
    hide HasActiveJob, OneActive, DocumentsAgree, Leased;
  }

  /** A completion is accepted exactly from the owner under a live lease. */
  lemma CompletionIff(w: World, c: Claim)
    requires Enabled(w, Complete(c))
    ensures Reports(w, Complete(c), c.job.id) <==> Held(w.t, c) && InTime(w.t, c)
    ensures !Reports(w, Complete(c), c.job.id) ==> After(w, Complete(c)) == w
  {
  }

  /** Which failures are retried: those reported by the owner under a live lease that may pass, while
      attempts are left. The owner's other failures are final. */
  lemma FailureIff(w: World, s: Step)
    requires Inv(w) && Enabled(w, s) && s.Fail?
    ensures var id := s.c.job.id;
            var heard := Held(w.t, s.c) && InTime(w.t, s.c);
            && (Retries(w, s, id) <==>
                  && heard && s.failure.retryable
                  && w.t.jobs[id].attempts < w.t.jobs[id].maxAttempts && w.t.jobs[id].attempts < s.config.maxAttempts)
            && (Reports(w, s, id) <==>
                  && heard
                  && (!s.failure.retryable || w.t.jobs[id].attempts >= w.t.jobs[id].maxAttempts
                      || w.t.jobs[id].attempts >= s.config.maxAttempts))
            && (!heard ==> After(w, s) == w)
  {
    hide HasActiveJob, OneActive, DocumentsAgree, Sanitized, ComputeBackoffSecs, RetriedJob, DeadJob;
  }

  /** A retried job waits in the queue, free of its claim; its document is queued again. */
  lemma RetryShows(w: World, s: Step)
    requires Inv(w) && Enabled(w, s) && s.Fail? && Retries(w, s, s.c.job.id)
    ensures var u, t, id, d := After(w, s).t, w.t, s.c.job.id, s.c.job.document;
            && OthersStay(t, u, id, d) && id in u.jobs && d in u.docs
            && u.jobs[id].status == Queued && SameJob(t.jobs[id], u.jobs[id])
            && u.jobs[id].lease == None && u.jobs[id].claimedBy == None && u.jobs[id].token == None
            && u.jobs[id].availableAt
               == t.now + ComputeBackoffSecs(t.jobs[id].attempts, s.config.backoff.baseSecs, s.config.backoff.maxSecs)
            && u.jobs[id].fault == Some(Fault(s.failure.code, Sanitized(s.failure.message)))
            && u.docs[d].status == InProgress && u.docs[d].stage == StageQueued
            && u.docs[d].fault == t.docs[d].fault && u.docs[d].workspace == t.docs[d].workspace
  {
    hide HasActiveJob, OneActive, DocumentsAgree, Sanitized, ComputeBackoffSecs;
  }

  /** A final failure: the job is dead and its document failed, both with the same fault, which names
      the failure itself, or the retry limit if the failure might have passed. */
  lemma DeathShows(w: World, s: Step)
    requires Inv(w) && Enabled(w, s) && s.Fail? && Reports(w, s, s.c.job.id)
    ensures var u, t, id, d := After(w, s).t, w.t, s.c.job.id, s.c.job.document;
            && OthersStay(t, u, id, d) && id in u.jobs && d in u.docs
            && u.jobs[id].status == JobDead && u.jobs[id].lease == None && SameJob(t.jobs[id], u.jobs[id])
            && u.jobs[id].fault.Some? && u.docs[d].fault == u.jobs[id].fault
            && u.jobs[id].fault.value.code
               == (if s.failure.retryable then "INGESTION_MAX_ATTEMPTS_EXCEEDED" else s.failure.code)
            && (!s.failure.retryable ==> u.jobs[id].fault.value.message == Sanitized(s.failure.message))
            && u.docs[d].status == Failed && u.docs[d].stage == StageFailed
            && u.docs[d].workspace == t.docs[d].workspace
  {
    hide HasActiveJob, OneActive, DocumentsAgree, Sanitized, ComputeBackoffSecs;
  }

  // ----- Messages -----

  lemma {:induction false} WithoutControlsIs(s: string)
    ensures forall c | c in WithoutControls(s) :: !IsControl(c)
    ensures (forall c | c in s :: !IsControl(c)) ==> WithoutControls(s) == s
  {
    if s != "" {
      WithoutControlsIs(s[1..]);
      assert s == [s[0]] + s[1..];
    }
  }

  lemma {:induction false} ControlsVanish(a: string, c: char, b: string)
    requires IsControl(c)
    ensures WithoutControls(a + [c] + b) == WithoutControls(a + b)
  {
    if a == "" {
      assert (a + [c] + b)[1..] == a + b;
    } else {
      assert (a + [c] + b)[1..] == a[1..] + [c] + b && (a + b)[1..] == a[1..] + b;
      ControlsVanish(a[1..], c, b);
    }
  }

  /** A stored message has no control character and at most 240 characters; control characters vanish
      without a trace, and other text is kept up to that length. */
  lemma SanitizedSays(a: string, c: char, b: string)
    ensures |Sanitized(a)| <= 240 && forall x | x in Sanitized(a) :: !IsControl(x)
    ensures IsControl(c) ==> Sanitized(a + [c] + b) == Sanitized(a + b)
    ensures (forall x | x in a :: !IsControl(x)) ==> Sanitized(a) <= a && (|a| > 240 ==> |Sanitized(a)| == 240)
    ensures (forall x | x in a :: !IsControl(x)) && |a| <= 240 ==> Sanitized(a) == a
  {
    WithoutControlsIs(a);
    if IsControl(c) { ControlsVanish(a, c, b); }
  }

  // ----- Enqueueing -----

  /** An upload's document is in progress, and its job can be claimed at once, with all its attempts. */
  lemma UploadShows(w: World, s: Step)
    requires Inv(w) && Enabled(w, s) && s.Upload?
    ensures var u, t := After(w, s).t, w.t;
            && u.jobs.Keys == t.jobs.Keys + {s.id} && u.docs.Keys == t.docs.Keys + {s.document} && u.now == t.now
            && (forall i | i in t.jobs :: u.jobs[i] == t.jobs[i]) && (forall d | d in t.docs :: u.docs[d] == t.docs[d])
            && Waits(u, s.id, s.document, s.workspace, s.maxAttempts)
  {
    hide HasActiveJob, OneActive, DocumentsAgree, Leased;
  }

  /** Job `id` is new and ready, and its document in progress and queued. */
  predicate Waits(u: Tables, id: Id, document: Id, workspace: Id, maxAttempts: I32) {
    && id in u.jobs && document in u.docs
    && u.jobs[id].document == document && u.jobs[id].workspace == workspace
    && u.jobs[id].status == Queued && u.jobs[id].availableAt <= u.now
    && u.jobs[id].attempts == 0 && u.jobs[id].maxAttempts == maxAttempts
    && u.jobs[id].token == None && u.jobs[id].lease == None && u.jobs[id].fault == None
    && u.docs[document].workspace == workspace && u.docs[document].status == InProgress
    && u.docs[document].stage == StageQueued && u.docs[document].fault == None
  }

  /** A document is re-queued exactly if it failed, or completed and completed ones are allowed; in a
      reachable state neither has an active job. */
  lemma RequeueShows(w: World, s: Step)
    requires Inv(w) && Enabled(w, s) && s.Requeue?
    ensures var u, t, d := After(w, s).t, w.t, s.document;
            if d in t.docs && t.docs[d].workspace == s.workspace
               && (t.docs[d].status == Failed || (t.docs[d].status == Completed && s.eligibility == FailedOrCompleted))
            then && Requeued(t, d, s.workspace, s.maxAttempts, s.eligibility, s.id).1
                 && u.jobs.Keys == t.jobs.Keys + {s.id} && u.docs.Keys == t.docs.Keys && u.now == t.now
                 && (forall i | i in t.jobs :: u.jobs[i] == t.jobs[i])
                 && (forall x | x in t.docs && x != d :: u.docs[x] == t.docs[x])
                 && Waits(u, s.id, d, s.workspace, s.maxAttempts)
            else u == t && !Requeued(t, d, s.workspace, s.maxAttempts, s.eligibility, s.id).1
  {
    hide HasActiveJob, OneActive, Leased;
  }

  // ----- Recovery and deletion -----

  /** Whatever the tables hold, as they may from before there were jobs: after the recovery no document
      is in progress without an active job; it fails exactly those documents, and touches nothing else. */
  lemma RecoveryRestores(t: Tables)
    ensures var u := Recovered(t);
            && u.jobs == t.jobs && u.now == t.now && u.docs.Keys == t.docs.Keys
            && (forall d | d in t.docs ::
                  if t.docs[d].status == InProgress && !HasActiveJob(t, d)
                  then && u.docs[d].status == Failed && u.docs[d].stage == StageFailed
                       && u.docs[d].workspace == t.docs[d].workspace
                       && u.docs[d].fault.Some? && u.docs[d].fault.value.code == "INGESTION_JOB_MISSING"
                  else u.docs[d] == t.docs[d])
            && (forall d | d in u.docs && u.docs[d].status == InProgress :: HasActiveJob(u, d))
            && Recovered(u) == u
  {
    var u := Recovered(t);
    assert forall d :: HasActiveJob(u, d) <==> HasActiveJob(t, d);
    hide HasActiveJob;
  }

  lemma DeletionShows(t: Tables, document: Id)
    ensures var u := DocumentDeleted(t, document);
            && u.docs.Keys == t.docs.Keys - {document} && (forall d | d in u.docs :: u.docs[d] == t.docs[d])
            && (forall i :: i in u.jobs <==> i in t.jobs && t.jobs[i].document != document)
            && (forall i | i in u.jobs :: u.jobs[i] == t.jobs[i]) && u.now == t.now
  {
  }

  // ----- A document and its last job -----

  /** What a document's row says of the job that was enqueued for it last. */
  predicate Tells(d: Document, j: Job) {
    match d.status
    case InProgress => Active(j)
    case Completed => j.status == Succeeded && d.stage == Done && d.fault == None && j.fault == None
    case Failed => j.status == JobDead && d.stage == StageFailed && d.fault.Some? && d.fault == j.fault
  }

  /** `latest` names a job of each document, and the document tells of that job. */
  ghost predicate ToldByLatest(t: Tables, latest: map<Id, Id>) {
    forall d | d in t.docs :: ToldBy(t, d, latest)
  }

  ghost predicate ToldBy(t: Tables, d: Id, latest: map<Id, Id>)
    requires d in t.docs
  {
    d in latest && latest[d] in t.jobs && t.jobs[latest[d]].document == d && Tells(t.docs[d], t.jobs[latest[d]])
  }

  /** The jobs enqueued last, after one more step. */
  ghost function LatestAfter(w: World, s: Step, latest: map<Id, Id>): map<Id, Id>
    requires Enabled(w, s)
  {
    match s
    case Upload(document, _, id, _) => latest[document := id]
    case Requeue(document, _, _, _, id) => if id in After(w, s).t.jobs then latest[document := id] else latest
    case _ => latest
  }

  ghost function LatestJobs(w: World, steps: seq<Step>, latest: map<Id, Id>): map<Id, Id>
    requires CanRun(w, steps)
    decreases |steps|
  {
    if steps == [] then latest else LatestJobs(After(w, steps[0]), steps[1..], LatestAfter(w, steps[0], latest))
  }

  /** The job that is owned is the last one of its document. */
  lemma OwnedIsLatest(w: World, c: Claim, latest: map<Id, Id>)
    requires Inv(w) && ToldByLatest(w.t, latest) && c in w.claims && Owns(w.t, c.job, c.worker)
    ensures c.job.document in w.t.docs && c.job.document in latest && latest[c.job.document] == c.job.id
    ensures w.t.docs[c.job.document].status == InProgress
  {
    var t, d := w.t, c.job.document;
    assert Active(t.jobs[c.job.id]) && t.jobs[c.job.id].document == d;
    assert HasActiveJob(t, d) && t.docs[d].status == InProgress;
    assert ToldBy(t, d, latest);
  }

  lemma OwnerKeepsTold(w: World, s: Step, latest: map<Id, Id>)
    requires Inv(w) && Enabled(w, s) && ByOwner(s) && ToldByLatest(w.t, latest)
    ensures ToldByLatest(After(w, s).t, latest)
  {
    hide HasActiveJob, OneActive, DocumentsAgree, Leased, Sanitized, ComputeBackoffSecs, DispositionAfterFailure;
    var u, c := After(w, s).t, s.c.job;
    if u != w.t {
      assert Owns(w.t, c, s.c.worker);
      OwnedIsLatest(w, s.c, latest);
      OwnersResult(w, s);
      hide After;
      forall d | d in u.docs ensures ToldBy(u, d, latest) {
        assert ToldBy(w.t, d, latest);
      }
    }
  }

  /** What an owner's step leaves in the two rows it may write. */
  lemma OwnersResult(w: World, s: Step)
    requires Inv(w) && Enabled(w, s) && ByOwner(s) && Owns(w.t, s.c.job, s.c.worker)
    requires s.c.job.document in w.t.docs && w.t.docs[s.c.job.document].status == InProgress
    ensures var u, c := After(w, s).t, s.c.job;
            && OthersStay(w.t, u, c.id, c.document)
            && u.jobs[c.id].document == c.document && Tells(u.docs[c.document], u.jobs[c.id])
  {
    var c := s.c.job;
    if s.Complete? {
      if Reports(w, s, c.id) { CompletionShows(w, s.c); } else { CompletionIff(w, s.c); }
    } else if s.Fail? {
      FailureIff(w, s);
      if Reports(w, s, c.id) {
        DeathShows(w, s);
      } else if Retries(w, s, c.id) {
        RetryShows(w, s);
      }
      hide After;
    } else if s.SetStage? {
      StageShows(w, s.c, s.stage);
      hide After;
    }
    hide HasActiveJob, OneActive, DocumentsAgree, Leased;
  }

  lemma EnqueueKeepsTold(w: World, s: Step, latest: map<Id, Id>)
    requires Inv(w) && Enabled(w, s) && (s.Upload? || s.Requeue?) && ToldByLatest(w.t, latest)
    ensures ToldByLatest(After(w, s).t, LatestAfter(w, s, latest))
  {
    if s.Upload? { UploadShows(w, s); } else { RequeueShows(w, s); }
    assert s.id !in w.t.jobs;
    hide After, Inv, Requeued, Enabled;
    if s.id in After(w, s).t.jobs {
      NewJobTells(w.t, After(w, s).t, s.id, s.document, latest);
    }
  }

  lemma NewJobTells(t: Tables, u: Tables, id: Id, document: Id, latest: map<Id, Id>)
    requires ToldByLatest(t, latest) && id !in t.jobs && id in u.jobs && u.jobs[id].document == document
    requires document in u.docs && u.docs[document].status == InProgress && u.jobs[id].status == Queued
    requires forall i | i in t.jobs :: i in u.jobs && u.jobs[i] == t.jobs[i]
    requires forall d | d in u.docs && d != document :: d in t.docs && u.docs[d] == t.docs[d]
    ensures ToldByLatest(u, latest[document := id])
  {
    hide Tells;
    forall d | d in u.docs ensures ToldBy(u, d, latest[document := id]) {
      if d != document { assert ToldBy(t, d, latest); } else { QueuedTells(u.docs[d], u.jobs[id]); }
    }
  }

  lemma QueuedTells(d: Document, j: Job)
    requires d.status == InProgress && j.status == Queued
    ensures Tells(d, j)
  {
  }

  lemma TakeKeepsTold(w: World, s: Step, latest: map<Id, Id>)
    requires Enabled(w, s) && s.TakeJobs? && ToldByLatest(w.t, latest)
    ensures ToldByLatest(After(w, s).t, latest)
  {
    ClaimShows(w, s);
    hide After;
    forall d | d in After(w, s).t.docs ensures ToldBy(After(w, s).t, d, latest) {
      assert ToldBy(w.t, d, latest);
      if latest[d] in s.grant { ClaimTakesTheEarliest(w, s, latest[d]); }
    }
  }

  lemma DeleteKeepsTold(t: Tables, document: Id, latest: map<Id, Id>)
    requires ToldByLatest(t, latest)
    ensures ToldByLatest(DocumentDeleted(t, document), latest)
  {
    DeletionShows(t, document);
    var u := DocumentDeleted(t, document);
    hide DocumentDeleted;
    forall d | d in u.docs ensures ToldBy(u, d, latest) { assert ToldBy(t, d, latest); }
  }

  lemma ToldKept(w: World, s: Step, latest: map<Id, Id>)
    requires Inv(w) && Enabled(w, s) && ToldByLatest(w.t, latest)
    ensures ToldByLatest(After(w, s).t, LatestAfter(w, s, latest))
  {
    match s {
      case TakeJobs(_, _, _, _, _) => TakeKeepsTold(w, s, latest);
      case Upload(_, _, _, _) => EnqueueKeepsTold(w, s, latest);
      case Requeue(_, _, _, _, _) => EnqueueKeepsTold(w, s, latest);
      case Tick(_) => TickKeepsTold(w, s, latest);
      case Recover => RecoveryIsNoOp(w.t);
      case Delete(d) => DeleteKeepsTold(w.t, d, latest);
      case _ => OwnerKeepsTold(w, s, latest);
    }
  }

  lemma TickKeepsTold(w: World, s: Step, latest: map<Id, Id>)
    requires s.Tick? && ToldByLatest(w.t, latest)
    ensures ToldByLatest(After(w, s).t, latest)
  {
    forall d | d in After(w, s).t.docs ensures ToldBy(After(w, s).t, d, latest) { assert ToldBy(w.t, d, latest); }
  }

  lemma {:induction false} ToldAlong(w: World, steps: seq<Step>, latest: map<Id, Id>)
    requires Inv(w) && CanRun(w, steps) && ToldByLatest(w.t, latest)
    ensures ToldByLatest(Run(w, steps).t, LatestJobs(w, steps, latest))
    decreases |steps|
  {
    hide Inv, After, ToldByLatest, LatestAfter;
    if steps != [] {
      InvKept(w, steps[0]);
      ToldKept(w, steps[0], latest);
      ToldAlong(After(w, steps[0]), steps[1..], LatestAfter(w, steps[0], latest));
    }
  }

  /** In every reachable state, what became of a document is what became of the job enqueued for it
      last: in progress if and only if that job is active, completed if and only if it succeeded, and
      failed, with the job's own fault, if and only if it died. */
  lemma DocumentTellsOfItsLastJob(steps: seq<Step>, d: Id)
    requires CanRun(EMPTY_WORLD, steps) && d in Run(EMPTY_WORLD, steps).t.docs
    ensures var t, latest := Run(EMPTY_WORLD, steps).t, LatestJobs(EMPTY_WORLD, steps, map[]);
            && d in latest && latest[d] in t.jobs && t.jobs[latest[d]].document == d
            && (t.docs[d].status == InProgress <==> Active(t.jobs[latest[d]]))
            && (t.docs[d].status == Completed <==> t.jobs[latest[d]].status == Succeeded)
            && (t.docs[d].status == Failed <==> t.jobs[latest[d]].status == JobDead)
            && (t.docs[d].status == Failed ==> t.docs[d].fault.Some? && t.docs[d].fault == t.jobs[latest[d]].fault)
            && (t.docs[d].status == Completed ==> t.docs[d].fault == None)
  {
    var t, latest := Run(EMPTY_WORLD, steps).t, LatestJobs(EMPTY_WORLD, steps, map[]);
    ToldAlong(EMPTY_WORLD, steps, map[]);
    hide Run, CanRun, LatestJobs;
    assert ToldBy(t, d, latest);
  }
}
